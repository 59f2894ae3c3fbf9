/** The verdicts of charm/payload/bond_validator.py on the captured LACPDUs. */
module BondValidator {
  import opened Order
  import opened ProbeOutput
  import opened Sections
  import Pcap

  datatype Bond = Bond(name: string, lacp: bool, members: seq<string>)

  /** An entry of the bonds list. */
  datatype BondEntry =
    | Judged(bond: string, modePass: bool, cablingPass: bool)
    | Unattempted(bond: string, reason: Reason)

  /** The bytes tcpdump writes for a member of a bond. */
  type Wire = (string, string) -> Pcap.Bytes

  /** The PDUs a member of a bond heard. */
  type Pdus = (string, string) -> seq<Pcap.Lacpdu>

  function PdusOf(wire: Wire): Pdus { (bond, member) => Pcap.Parse(Pcap.DecodeLacp, wire(bond, member)) }

  // ----- what a verdict means -----------------------------------------------

  predicate Heard(pdus: Pdus, b: Bond, pdu: Pcap.Lacpdu) {
    exists m :: m in b.members && pdu in pdus(b.name, m)
  }

  ghost predicate AnyPdu(pdus: Pdus, b: Bond) {
    exists pdu :: Heard(pdus, b, pdu)
  }

  /** The switch side negotiates exactly when the host side does not. */
  ghost predicate ModeFails(pdus: Pdus, b: Bond) {
    b.lacp != AnyPdu(pdus, b)
  }

  /** Two members hear from different switches. */
  ghost predicate CablingFails(pdus: Pdus, b: Bond) {
    exists p, q :: Heard(pdus, b, p) && Heard(pdus, b, q) && p.actorSystem != q.actorSystem
  }

  ghost function EntryFor(pdus: Pdus, b: Bond): BondEntry {
    Judged(b.name, !ModeFails(pdus, b), !CablingFails(pdus, b))
  }

  const MODE_FINDING := Finding("bond-mode-mismatch", Definitive, None)
  const CABLE_FINDING := Finding("asymmetric-bond-cable", Definitive, None)

  ghost function FindingsFor(pdus: Pdus, b: Bond): seq<Finding> {
    (if ModeFails(pdus, b) then [MODE_FINDING] else []) + (if CablingFails(pdus, b) then [CABLE_FINDING] else [])
  }

  ghost function Findings(pdus: Pdus, bonds: seq<Bond>): seq<Finding> {
    if bonds == [] then []
    else Findings(pdus, bonds[..|bonds| - 1]) + FindingsFor(pdus, bonds[|bonds| - 1])
  }

  /** One entry per bond, in order. */
  ghost function Entries(pdus: Pdus, bonds: seq<Bond>): seq<BondEntry> {
    if bonds == [] then [] else Entries(pdus, bonds[..|bonds| - 1]) + [EntryFor(pdus, bonds[|bonds| - 1])]
  }

  ghost function NotJudged(bonds: seq<Bond>, reason: Reason): seq<BondEntry> {
    if bonds == [] then [] else NotJudged(bonds[..|bonds| - 1], reason) + [Unattempted(bonds[|bonds| - 1].name, reason)]
  }

  lemma {:induction false} EntriesMeaning(pdus: Pdus, bonds: seq<Bond>, reason: Reason, i: nat)
    requires i < |bonds|
    ensures |Entries(pdus, bonds)| == |NotJudged(bonds, reason)| == |bonds|
    ensures Entries(pdus, bonds)[i] == EntryFor(pdus, bonds[i])
    ensures NotJudged(bonds, reason)[i] == Unattempted(bonds[i].name, reason)
  {
    var n := |bonds| - 1;
    if n > 0 { EntriesMeaning(pdus, bonds[..n], reason, if i < n then i else 0); }
  }

  ghost predicate SomeMode(pdus: Pdus, bonds: seq<Bond>) { exists b :: b in bonds && ModeFails(pdus, b) }
  ghost predicate SomeCabling(pdus: Pdus, bonds: seq<Bond>) { exists b :: b in bonds && CablingFails(pdus, b) }

  lemma OneMoreBond(pdus: Pdus, before: seq<Bond>, b: Bond)
    ensures SomeMode(pdus, before + [b]) <==> SomeMode(pdus, before) || ModeFails(pdus, b)
    ensures SomeCabling(pdus, before + [b]) <==> SomeCabling(pdus, before) || CablingFails(pdus, b)
  {
    assert b in before + [b] && forall x :: x in before ==> x in before + [b];
  }

  /** Every finding is definitive, and each kind is found exactly when some bond
      fails that way. */
  lemma {:induction false} FindingsMeaning(pdus: Pdus, bonds: seq<Bond>, f: Finding)
    ensures f in Findings(pdus, bonds) <==>
      || (f == Finding("bond-mode-mismatch", Definitive, None) && SomeMode(pdus, bonds))
      || (f == Finding("asymmetric-bond-cable", Definitive, None) && SomeCabling(pdus, bonds))
  {
    if bonds != [] {
      var n := |bonds| - 1;
      FindingsMeaning(pdus, bonds[..n], f);
      OneMoreBond(pdus, bonds[..n], bonds[n]);
      assert bonds == bonds[..n] + [bonds[n]];
    }
  }

  /** Verdicts in terms of the captured bytes: the mode is right when PDUs are
      heard exactly on an LACP bond, the cabling when all of them come from one
      switch. */
  lemma VerdictMeaning(wire: Wire, b: Bond)
    ensures var heard := set m, pdu | m in b.members && pdu in Pcap.Parse(Pcap.DecodeLacp, wire(b.name, m)) :: pdu;
      EntryFor(PdusOf(wire), b) == Judged(b.name, b.lacp == (heard != {}),
        forall p, q :: p in heard && q in heard ==> p.actorSystem == q.actorSystem)
  {
    var pdus := PdusOf(wire);
    var heard := set m, pdu | m in b.members && pdu in Pcap.Parse(Pcap.DecodeLacp, wire(b.name, m)) :: pdu;
    assert forall pdu :: pdu in heard <==> Heard(pdus, b, pdu);
    assert heard != {} <==> AnyPdu(pdus, b) by {
      if pdu :| pdu in heard { assert Heard(pdus, b, pdu); }
    }
  }

  // ----- the loops ----------------------------------------------------------

  lemma MoreThanOne(ids: set<string>)
    ensures |ids| > 1 <==> exists x, y :: x in ids && y in ids && x != y
  {
    if |ids| > 1 {
      var x :| x in ids;
      assert |ids - {x}| >= 1;
      var y :| y in ids - {x};
    }
    if x, y :| x in ids && y in ids && x != y {
      assert {x, y} <= ids;
      SubsetSize({x, y}, ids);
    }
  }

  lemma DifferentIds(pdus: Pdus, b: Bond, ids: set<string>)
    requires forall id :: id in ids <==> exists pdu :: Heard(pdus, b, pdu) && pdu.actorSystem == id
    ensures |ids| > 1 <==> CablingFails(pdus, b)
  {
    MoreThanOne(ids);
    if |ids| > 1 {
      var x, y :| x in ids && y in ids && x != y;
      var p :| Heard(pdus, b, p) && p.actorSystem == x;
      var q :| Heard(pdus, b, q) && q.actorSystem == y;
    }
    if p, q :| Heard(pdus, b, p) && Heard(pdus, b, q) && p.actorSystem != q.actorSystem {
      assert p.actorSystem in ids && q.actorSystem in ids;
    }
  }

  /** `pdus_by`: the parsed capture of every member of every bond. */
  type Captured = map<(string, string), seq<Pcap.Lacpdu>>

  predicate Covers(pdus: Pdus, captured: Captured, b: Bond) {
    forall m :: m in b.members ==> (b.name, m) in captured && captured[(b.name, m)] == pdus(b.name, m)
  }

  /** A PDU in the capture of a member of the bond. */
  predicate Held(captured: Captured, b: Bond, pdu: Pcap.Lacpdu) {
    exists m :: m in b.members && (b.name, m) in captured && pdu in captured[(b.name, m)]
  }

  lemma HeldIsHeard(pdus: Pdus, captured: Captured, b: Bond, pdu: Pcap.Lacpdu)
    requires Covers(pdus, captured, b)
    ensures Held(captured, b, pdu) <==> Heard(pdus, b, pdu)
  {
  }

  /** `actor_ids` of a bond and whether any PDU was heard. */
  method ActorIds(captured: Captured, b: Bond) returns (ids: set<string>, any: bool)
    requires forall m :: m in b.members ==> (b.name, m) in captured
    ensures any <==> exists pdu :: Held(captured, b, pdu)
    ensures forall id :: id in ids <==> exists pdu :: Held(captured, b, pdu) && pdu.actorSystem == id
  {
    ids, any := {}, false;
    for i := 0 to |b.members|
      invariant any <==> exists j :: 0 <= j < i && captured[(b.name, b.members[j])] != []
      invariant forall id :: id in ids <==>
        exists j, pdu :: 0 <= j < i && pdu in captured[(b.name, b.members[j])] && pdu.actorSystem == id
    {
      assert b.members[i] in b.members;
      var list := captured[(b.name, b.members[i])];
      if list != [] {
        any := true;
        ids := ids + set pdu | pdu in list :: pdu.actorSystem;
      }
    }
    if any {
      var j :| 0 <= j < |b.members| && captured[(b.name, b.members[j])] != [];
      assert Held(captured, b, captured[(b.name, b.members[j])][0]);
    }
  }

  class BondRun {
    var status: SectionStatus
    var findings: seq<Finding>
    var bonds: seq<BondEntry>

    constructor ()
      ensures status == NotStarted && findings == [] && bonds == []
    {
      status, findings, bonds := NotStarted, [], [];
    }

    /** `_flush_unattempted`: nothing was attempted. */
    method Flush(all: seq<Bond>, reason: Reason)
      modifies `bonds
      ensures bonds == old(bonds) + NotJudged(all, reason)
    {
      for i := 0 to |all|
        invariant bonds == old(bonds) + NotJudged(all[..i], reason)
      {
        assert all[..i + 1][..i] == all[..i];
        bonds := bonds + [Unattempted(all[i].name, reason)];
      }
      assert all[..|all|] == all;
    }

    method Judge(ghost pdus: Pdus, captured: Captured, b: Bond)
      requires Covers(pdus, captured, b)
      modifies `findings, `bonds
      ensures bonds == old(bonds) + [EntryFor(pdus, b)]
      ensures findings == old(findings) + FindingsFor(pdus, b)
    {
      var ids, any := ActorIds(captured, b);
      forall pdu ensures Held(captured, b, pdu) <==> Heard(pdus, b, pdu) { HeldIsHeard(pdus, captured, b, pdu); }
      var entry := Judged(b.name, true, true);
      if b.lacp && !any {
        entry := entry.(modePass := false);
        findings := findings + [MODE_FINDING];
      } else if !b.lacp && any {
        entry := entry.(modePass := false);
        findings := findings + [MODE_FINDING];
      }
      DifferentIds(pdus, b, ids);
      if |ids| > 1 {
        entry := entry.(cablingPass := false);
        findings := findings + [CABLE_FINDING];
      }
      bonds := bonds + [entry];
    }

    /** The loop over the bonds after a full capture window. */
    method JudgeAll(ghost pdus: Pdus, captured: Captured, all: seq<Bond>)
      requires bonds == [] && findings == [] && forall b :: b in all ==> Covers(pdus, captured, b)
      modifies `findings, `bonds
      ensures bonds == Entries(pdus, all)
      ensures findings == Findings(pdus, all)
    {
      for i := 0 to |all|
        invariant bonds == Entries(pdus, all[..i])
        invariant findings == Findings(pdus, all[..i])
      {
        assert all[..i + 1][..i] == all[..i];
        assert all[i] in all;
        Judge(pdus, captured, all[i]);
      }
      assert all[..|all|] == all;
    }

    /** `run`: one entry per bond in order, judged on what its members heard, or
        all carrying the reason and nothing found when the flag was seen before
        the end of the capture window. */
    method Run(all: seq<Bond>, wire: Wire, flag: Flag)
      requires bonds == [] && findings == [] && status == NotStarted
      modifies this, flag
      ensures status == Done ==> findings == Findings(PdusOf(wire), all) && bonds == Entries(PdusOf(wire), all)
      ensures status != Done ==>
        status == NotStarted && flag.isSet && findings == [] && bonds == NotJudged(all, flag.reason)
      ensures status == Done <==> !flag.isSet
      ensures old(flag.isSet) ==> flag.isSet && flag.reason == old(flag.reason)
    {
      var cancelled := flag.IsSet();
      if cancelled {
        Flush(all, flag.reason);
        return;
      }
      if all == [] {
        status := Done;
        return;
      }
      cancelled := flag.IsSet();
      var captured := CaptureAll(all, wire);
      if cancelled {
        Flush(all, flag.reason);
        return;
      }
      JudgeAll(PdusOf(wire), captured, all);
      status := Done;
    }
  }

  /** Every member's capture, stopped and parsed. */
  method CaptureAll(all: seq<Bond>, wire: Wire) returns (captured: Captured)
    ensures forall b :: b in all ==> Covers(PdusOf(wire), captured, b)
  {
    captured := map[];
    for i := 0 to |all|
      invariant Faithful(wire, captured)
      invariant forall k, m :: 0 <= k < i && m in all[k].members ==> (all[k].name, m) in captured
    {
      captured := CaptureBond(all[i], wire, captured);
    }
  }

  ghost predicate Faithful(wire: Wire, captured: Captured) {
    forall key :: key in captured ==> captured[key] == Pcap.Parse(Pcap.DecodeLacp, wire(key.0, key.1))
  }

  method CaptureBond(b: Bond, wire: Wire, before: Captured) returns (captured: Captured)
    requires Faithful(wire, before)
    ensures Faithful(wire, captured) && before.Keys <= captured.Keys
    ensures forall m :: m in b.members ==> (b.name, m) in captured
  {
    captured := before;
    for j := 0 to |b.members|
      invariant Faithful(wire, captured) && before.Keys <= captured.Keys
      invariant forall k :: 0 <= k < j ==> (b.name, b.members[k]) in captured
    {
      var pdus := Pcap.ParseLacpPcap(wire(b.name, b.members[j]));
      captured := captured[(b.name, b.members[j]) := pdus];
    }
  }
}
