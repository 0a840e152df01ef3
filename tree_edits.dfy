/// The admin page's edits of the roadmap document, each as a function from the
/// document before to the document after. The page's handlers (module
/// AdminRoadmap) perform these edits step by step on the stored document and
/// are proved to produce exactly these results; the lemmas here state what the
/// edits promise.
module TreeEdits {
  import opened Roadmap

  // ---------------------------------------------------------------------------
  // Decimal numerals, for the generated keys `phase{n}` and `semaine{n}`.
  // ---------------------------------------------------------------------------

  predicate IsDigits(s: string)
  {
    forall k :: 0 <= k < |s| ==> '0' <= s[k] <= '9'
  }

  /** The decimal numeral of n, as a template literal writes it. */
  function NatToString(n: nat): (r: string)
    ensures |r| >= 1 && IsDigits(r)
    decreases n
  {
    if n < 10 then [(48 + n) as char]
    else NatToString(n / 10) + [(48 + n % 10) as char]
  }

  /** The value of a decimal numeral. */
  function DigitsValue(s: string): nat
    requires IsDigits(s)
  {
    if s == [] then 0
    else DigitsValue(s[..|s| - 1]) * 10 + ((s[|s| - 1] as int) - 48)
  }

  /** Reading back a numeral gives the number written. */
  lemma {:induction false} NatToStringValue(n: nat)
    ensures DigitsValue(NatToString(n)) == n
    decreases n
  {
    if n >= 10 {
      var s := NatToString(n);
      assert s[..|s| - 1] == NatToString(n / 10);
      NatToStringValue(n / 10);
    }
  }

  /** Distinct numbers give distinct keys. */
  lemma NumberedKeysDistinct(prefix: string, a: nat, b: nat)
    requires a != b
    ensures prefix + NatToString(a) != prefix + NatToString(b)
  {
    NatToStringValue(a);
    NatToStringValue(b);
    var ka, kb := prefix + NatToString(a), prefix + NatToString(b);
    assert ka[|prefix|..] == NatToString(a);
    assert kb[|prefix|..] == NatToString(b);
  }

  function PhaseKey(n: nat): string
  {
    "phase" + NatToString(n)
  }

  function WeekKey(n: nat): string
  {
    "semaine" + NatToString(n)
  }

  /** The first number from m on whose key `prefix{number}` is not taken yet:
      the key a numbered add evidently means to create. */
  function FreeNumber(keys: set<string>, prefix: string, m: nat): (r: nat)
    ensures r >= m
    ensures prefix + NatToString(r) !in keys
    ensures forall j :: m <= j < r ==> prefix + NatToString(j) in keys
    decreases |keys|
  {
    var key := prefix + NatToString(m);
    if key !in keys then m
    else
      var r := FreeNumber(keys - {key}, prefix, m + 1);
      NumberedKeysDistinct(prefix, r, m);
      r
  }

  // ---------------------------------------------------------------------------
  // Facts shared by several edits.
  // ---------------------------------------------------------------------------

  /** Writing a week back over one that exists changes no lookup result. */
  lemma ResolveAfterPutWeek(doc: Doc, i: nat, p: string, w: string, wk: Week,
                            sid: string, p': string, w': string)
    requires HasWeek(doc, i, p, w)
    ensures Resolve(PutWeek(doc, i, p, w, wk), sid, p', w') == Resolve(doc, sid, p', w')
  {
    var doc' := PutWeek(doc, i, p, w, wk);
    FindSectionSameIds(doc'.sections, doc.sections, sid);
    match FindSection(doc.sections, sid)
    case None =>
    case Some(k) =>
      if k == i {
        assert doc'.sections[i].phases.Keys == doc.sections[i].phases.Keys;
        if p' == p {
          assert doc'.sections[i].phases[p].weeks.Keys == doc.sections[i].phases[p].weeks.Keys;
        }
      }
  }

  /** Writing back the week that is already there changes nothing. */
  lemma PutWeekSame(doc: Doc, i: nat, p: string, w: string)
    requires HasWeek(doc, i, p, w)
    ensures PutWeek(doc, i, p, w, WeekAt(doc, i, p, w)) == doc
  {
    var s := doc.sections[i];
    var ph := s.phases[p];
    assert ph.weeks[w := ph.weeks[w]] == ph.weeks;
    assert s.phases[p := ph] == s.phases;
    assert doc.sections[i := s] == doc.sections;
  }

  /** The second of two writes to the same week wins. */
  lemma PutWeekTwice(doc: Doc, i: nat, p: string, w: string, a: Week, b: Week)
    requires HasPhase(doc, i, p)
    ensures PutWeek(PutWeek(doc, i, p, w, a), i, p, w, b) == PutWeek(doc, i, p, w, b)
  {
    var d1 := PutWeek(doc, i, p, w, a);
    var r1 := PutWeek(d1, i, p, w, b);
    var r2 := PutWeek(doc, i, p, w, b);
    var ph := doc.sections[i].phases[p];
    assert r1.sections[i].phases[p].weeks == ph.weeks[w := a][w := b] == r2.sections[i].phases[p].weeks;
    assert r1.sections[i].phases[p] == r2.sections[i].phases[p];
    assert r1.sections[i].phases == r2.sections[i].phases;
    assert r1.sections[i] == r2.sections[i];
    assert r1.sections == r2.sections;
  }

  /** The document's statistics depend on the sections' phases only. */
  lemma {:induction false} SectionsTallyPhasesOnly(a: seq<Section>, b: seq<Section>)
    requires |a| == |b| && forall k :: 0 <= k < |a| ==> a[k].phases == b[k].phases
    ensures SectionsTally(a) == SectionsTally(b)
  {
    if |a| > 0 {
      SectionsTallyPhasesOnly(a[1..], b[1..]);
    }
  }

  predicate UniqueIds(sections: seq<Section>)
  {
    forall j, k :: 0 <= j < k < |sections| ==> sections[j].id != sections[k].id
  }

  // ---------------------------------------------------------------------------
  // handleSectionChange
  // ---------------------------------------------------------------------------

  /** Every section's `active` flag set to whether its id is `sid`. */
  function Activate(sections: seq<Section>, sid: string): (r: seq<Section>)
    ensures |r| == |sections|
    ensures forall k :: 0 <= k < |r| ==> r[k] == sections[k].(active := sections[k].id == sid)
  {
    if sections == [] then []
    else [sections[0].(active := sections[0].id == sid)] + Activate(sections[1..], sid)
  }

  function HandleSectionChange(doc: Doc, sid: string): Doc
  {
    Doc(Activate(doc.sections, sid))
  }

  /** After the change a section is active exactly when it has the chosen id;
      its other fields, the section order and the statistics are unchanged. */
  lemma HandleSectionChangeSelects(doc: Doc, sid: string)
    ensures var r := HandleSectionChange(doc, sid);
            && |r.sections| == |doc.sections|
            && (forall k :: 0 <= k < |r.sections| ==> (r.sections[k].active <==> r.sections[k].id == sid))
            && (forall k :: 0 <= k < |r.sections| ==> r.sections[k].(active := doc.sections[k].active) == doc.sections[k])
            && DocTally(r) == DocTally(doc)
  {
    var r := HandleSectionChange(doc, sid);
    SectionsTallyPhasesOnly(r.sections, doc.sections);
  }

  /** With distinct section ids, exactly one section is active afterwards when
      the id exists, and none otherwise. */
  lemma HandleSectionChangeOneActive(doc: Doc, sid: string, j: nat, k: nat)
    requires UniqueIds(doc.sections)
    requires j < |doc.sections| && k < |doc.sections|
    ensures var r := HandleSectionChange(doc, sid).sections;
            r[j].active && r[k].active ==> j == k
    ensures var r := HandleSectionChange(doc, sid).sections;
            r[j].active <==> doc.sections[j].id == sid
  {
  }

  /** Choosing a section twice is choosing it once, and the last choice wins. */
  lemma HandleSectionChangeLastWins(doc: Doc, a: string, b: string)
    ensures HandleSectionChange(HandleSectionChange(doc, a), b) == HandleSectionChange(doc, b)
  {
    var r1 := HandleSectionChange(HandleSectionChange(doc, a), b);
    var r2 := HandleSectionChange(doc, b);
    assert r1.sections == r2.sections;
  }

  // ---------------------------------------------------------------------------
  // addSection / deleteSection
  // ---------------------------------------------------------------------------

  function NewWeek(n: nat): Week
  {
    Week("Semaine " + NatToString(n), n, None, [])
  }

  function NewPhase(order: int): Phase
  {
    Phase("Nouvelle Phase", order, map["semaine1" := Week("Semaine 1", 1, None, [])])
  }

  /** The section `addSection` appends; `id` stands for the generated id. */
  function NewSection(id: string): Section
  {
    Section(id, "Nouvelle Section", "blue", false, map["phase1" := NewPhase(1)])
  }

  function AddSection(doc: Doc, id: string): Doc
  {
    Doc(doc.sections + [NewSection(id)])
  }

  /** The new section is inactive, holds one phase `phase1` holding one empty
      week `semaine1`, and adds no task. */
  lemma AddSectionShape(doc: Doc, id: string)
    ensures var s := AddSection(doc, id).sections[|doc.sections|];
            && s.id == id && !s.active
            && s.phases.Keys == {"phase1"} && s.phases["phase1"].order == 1
            && s.phases["phase1"].weeks.Keys == {"semaine1"}
            && s.phases["phase1"].weeks["semaine1"].tasks == []
    ensures DocTally(AddSection(doc, id)) == DocTally(doc)
  {
    var s := NewSection(id);
    var ph := NewPhase(1);
    assert ph.weeks - {"semaine1"} == map[];
    WeeksTallyAnyKey(ph.weeks, "semaine1");
    assert s.phases - {"phase1"} == map[];
    PhasesTallyAnyKey(s.phases, "phase1");
    SectionsTallyAppend(doc.sections, s);
  }

  lemma {:induction false} SectionsTallyAppend(sections: seq<Section>, s: Section)
    ensures SectionsTally(sections + [s]) == Plus(SectionsTally(sections), PhasesTally(s.phases))
  {
    if sections == [] {
      assert [s][1..] == [];
    } else {
      assert (sections + [s])[1..] == sections[1..] + [s];
      SectionsTallyAppend(sections[1..], s);
      PlusAssoc(PhasesTally(sections[0].phases), SectionsTally(sections[1..]), PhasesTally(s.phases));
    }
  }

  /** `sections.filter(s => s.id !== sid)`. */
  function FilterSections(sections: seq<Section>, sid: string): (r: seq<Section>)
    ensures forall k :: 0 <= k < |r| ==> r[k].id != sid
    ensures forall s :: s in r ==> s in sections
    ensures forall s :: s in sections && s.id != sid ==> s in r
    ensures (forall k :: 0 <= k < |sections| ==> sections[k].id != sid) ==> r == sections
    ensures |r| <= |sections|
  {
    if sections == [] then []
    else if sections[0].id == sid then FilterSections(sections[1..], sid)
    else [sections[0]] + FilterSections(sections[1..], sid)
  }

  /** The filter keeps the order of what it keeps: it distributes over
      concatenation. */
  lemma {:induction false} FilterSectionsAppend(a: seq<Section>, b: seq<Section>, sid: string)
    ensures FilterSections(a + b, sid) == FilterSections(a, sid) + FilterSections(b, sid)
  {
    if a == [] {
      assert a + b == b;
    } else {
      assert (a + b)[1..] == a[1..] + b;
      FilterSectionsAppend(a[1..], b, sid);
    }
  }

  function DeleteSection(doc: Doc, sid: string): Doc
  {
    Doc(FilterSections(doc.sections, sid))
  }

  // ---------------------------------------------------------------------------
  // addPhase / deletePhase
  // ---------------------------------------------------------------------------

  /** `addPhase`: in the first section with the id, phase `phase{n+1}` with
      order n+1 and one empty week, n being the number of phases before; a
      phase already under that key is replaced. */
  function AddPhase(doc: Doc, sid: string): Doc
  {
    match FindSection(doc.sections, sid)
    case None => doc
    case Some(i) =>
      var s := doc.sections[i];
      var n := |s.phases|;
      PutSection(doc, i, s.(phases := s.phases[PhaseKey(n + 1) := NewPhase(n + 1)]))
  }

  /** When the new key is free, the section gains one phase and keeps all the
      others, and the document's statistics are unchanged. */
  lemma AddPhaseGrows(doc: Doc, sid: string)
    requires FindSection(doc.sections, sid).Some?
    requires var s := doc.sections[FindSection(doc.sections, sid).value];
             PhaseKey(|s.phases| + 1) !in s.phases
    ensures var i := FindSection(doc.sections, sid).value;
            var before := doc.sections[i].phases;
            var after := AddPhase(doc, sid).sections[i].phases;
            && |after| == |before| + 1
            && (forall q :: q in before ==> q in after && after[q] == before[q])
    ensures DocTally(AddPhase(doc, sid)) == DocTally(doc)
  {
    var i := FindSection(doc.sections, sid).value;
    var s := doc.sections[i];
    var key := PhaseKey(|s.phases| + 1);
    var s' := s.(phases := s.phases[key := NewPhase(|s.phases| + 1)]);
    assert s'.phases.Keys == s.phases.Keys + {key};
    NewPhaseTally(|s.phases| + 1);
    PhasesTallyPut(s.phases, key, NewPhase(|s.phases| + 1));
    SectionsTallyPut(doc.sections, i, s');
    assert AddPhase(doc, sid).sections == doc.sections[i := s'];
  }

  /** On a section with n phases, `addPhase` stores under `phase{n+1}` a phase
      titled "Nouvelle Phase", with order n+1 and one empty week `semaine1`,
      replacing any phase already under that key; every other phase of the
      section, its other fields and every other section stay. */
  lemma AddPhaseKey(doc: Doc, sid: string)
    requires FindSection(doc.sections, sid).Some?
    ensures var i := FindSection(doc.sections, sid).value;
            var n := |doc.sections[i].phases|;
            var before := doc.sections[i].phases;
            var r := AddPhase(doc, sid);
            var after := r.sections[i].phases;
            && |r.sections| == |doc.sections|
            && (forall k :: 0 <= k < |doc.sections| && k != i ==> r.sections[k] == doc.sections[k])
            && r.sections[i] == doc.sections[i].(phases := after)
            && after.Keys == before.Keys + {PhaseKey(n + 1)}
            && after[PhaseKey(n + 1)].title == "Nouvelle Phase"
            && after[PhaseKey(n + 1)].order == n + 1
            && after[PhaseKey(n + 1)].weeks == map["semaine1" := Week("Semaine 1", 1, None, [])]
            && (forall q :: q in before && q != PhaseKey(n + 1) ==> after[q] == before[q])
  {
  }

  /** A new phase holds no task. */
  lemma NewPhaseTally(order: int)
    ensures WeeksTally(NewPhase(order).weeks) == NoTally
  {
    var weeks := NewPhase(order).weeks;
    assert weeks - {"semaine1"} == map[];
    WeeksTallyAnyKey(weeks, "semaine1");
  }

  /** After a deletion the phase keys need not be `phase1`..`phasen`: with
      phases `phase1` and `phase3`, adding a phase writes over `phase3` and
      the section still has two phases. */
  lemma AddPhaseOverwrites(ph1: Phase, ph3: Phase)
    requires ph3 != NewPhase(3)
    ensures var s := Section("s", "S", "blue", true, map["phase1" := ph1, "phase3" := ph3]);
            var after := AddPhase(Doc([s]), "s").sections[0].phases;
            && |after| == 2
            && after["phase3"] == NewPhase(3)
            && after["phase3"] != ph3
  {
    var phases := map["phase1" := ph1, "phase3" := ph3];
    assert |phases| == 2 by {
      assert phases.Keys == {"phase1", "phase3"};
    }
    assert PhaseKey(3) == "phase3";
    var after := AddPhase(Doc([Section("s", "S", "blue", true, phases)]), "s").sections[0].phases;
    assert after == phases["phase3" := NewPhase(3)];
    assert after.Keys == {"phase1", "phase3"};
  }

  /** `addPhase` as evidently intended: the new phase goes under the first
      free key from `phase{n+1}` on, so no existing phase is replaced. */
  function AddPhaseFresh(doc: Doc, sid: string): Doc
  {
    match FindSection(doc.sections, sid)
    case None => doc
    case Some(i) =>
      var s := doc.sections[i];
      var n := |s.phases|;
      var key := PhaseKey(FreeNumber(s.phases.Keys, "phase", n + 1));
      PutSection(doc, i, s.(phases := s.phases[key := NewPhase(n + 1)]))
  }

  /** With fresh keys every add grows the section by exactly one new phase,
      whatever was deleted before, keeps every other phase and leaves the
      statistics unchanged. */
  lemma AddPhaseFreshGrows(doc: Doc, sid: string)
    requires FindSection(doc.sections, sid).Some?
    ensures var i := FindSection(doc.sections, sid).value;
            var before := doc.sections[i].phases;
            var after := AddPhaseFresh(doc, sid).sections[i].phases;
            && |after| == |before| + 1
            && (forall q :: q in before ==> q in after && after[q] == before[q])
            && (exists q :: q !in before && q in after && after[q] == NewPhase(|before| + 1))
    ensures DocTally(AddPhaseFresh(doc, sid)) == DocTally(doc)
  {
    var i := FindSection(doc.sections, sid).value;
    var s := doc.sections[i];
    var n := |s.phases|;
    var key := PhaseKey(FreeNumber(s.phases.Keys, "phase", n + 1));
    var s' := s.(phases := s.phases[key := NewPhase(n + 1)]);
    assert AddPhaseFresh(doc, sid).sections == doc.sections[i := s'];
    assert key !in s.phases;
    assert |s'.phases| == n + 1 by {
      assert s'.phases.Keys == s.phases.Keys + {key};
    }
    assert key in s'.phases && s'.phases[key] == NewPhase(n + 1);
    assert DocTally(AddPhaseFresh(doc, sid)) == DocTally(doc) by {
      NewPhaseTally(n + 1);
      PhasesTallyPut(s.phases, key, NewPhase(n + 1));
      SectionsTallyPut(doc.sections, i, s');
    }
  }

  /** `deletePhase`: the first section with the id loses the phase key. */
  function DeletePhase(doc: Doc, sid: string, p: string): Doc
  {
    match FindSection(doc.sections, sid)
    case None => doc
    case Some(i) => PutSection(doc, i, doc.sections[i].(phases := doc.sections[i].phases - {p}))
  }

  /** Deleting a phase removes exactly its tasks from the statistics, and every
      other phase stays as it was. */
  lemma DeletePhaseTally(doc: Doc, sid: string, p: string)
    requires FindSection(doc.sections, sid).Some?
    ensures var i := FindSection(doc.sections, sid).value;
            var phases := doc.sections[i].phases;
            var after := DeletePhase(doc, sid, p).sections[i].phases;
            && p !in after
            && (forall q :: q in phases && q != p ==> q in after && after[q] == phases[q])
            && Plus(DocTally(DeletePhase(doc, sid, p)), if p in phases then WeeksTally(phases[p].weeks) else NoTally)
               == DocTally(doc)
  {
    var i := FindSection(doc.sections, sid).value;
    var s := doc.sections[i];
    var s' := s.(phases := s.phases - {p});
    assert DeletePhase(doc, sid, p).sections == doc.sections[i := s'];
    var o := if p in s.phases then WeeksTally(s.phases[p].weeks) else NoTally;
    var x, y := DocTally(DeletePhase(doc, sid, p)), DocTally(doc);
    var a, a' := PhasesTally(s.phases), PhasesTally(s'.phases);
    assert Plus(x, a) == Plus(y, a') by {
      SectionsTallyPut(doc.sections, i, s');
    }
    assert a == Plus(o, a') by {
      RemovePhaseTally(s.phases, p);
    }
    assert Plus(x, o) == y by {
      PlusCancel(x, y, o, a');
    }
  }

  // ---------------------------------------------------------------------------
  // addWeek / deleteWeek
  // ---------------------------------------------------------------------------

  /** `addWeek`: in phase p of the first section with the id, week
      `semaine{m+1}` titled `Semaine {m+1}` with order m+1 and no task, m being
      the number of weeks before; a week already under that key is replaced. */
  function AddWeek(doc: Doc, sid: string, p: string): Doc
  {
    match FindSection(doc.sections, sid)
    case None => doc
    case Some(i) =>
      if HasPhase(doc, i, p) then
        var m := |doc.sections[i].phases[p].weeks|;
        PutWeek(doc, i, p, WeekKey(m + 1), NewWeek(m + 1))
      else doc
  }

  /** The new week is numbered after the week count, the phase's title and
      order stay, no statistic changes when the key was free, and with a free
      key the phase gains exactly one week. */
  lemma AddWeekShape(doc: Doc, sid: string, p: string)
    requires FindSection(doc.sections, sid).Some?
    requires HasPhase(doc, FindSection(doc.sections, sid).value, p)
    ensures var i := FindSection(doc.sections, sid).value;
            var ph := doc.sections[i].phases[p];
            var m := |ph.weeks|;
            var r := AddWeek(doc, sid, p);
            && HasWeek(r, i, p, WeekKey(m + 1))
            && WeekAt(r, i, p, WeekKey(m + 1)) == Week("Semaine " + NatToString(m + 1), m + 1, None, [])
            && r.sections[i].phases[p].title == ph.title
            && r.sections[i].phases[p].order == ph.order
            && (WeekKey(m + 1) !in ph.weeks ==> |r.sections[i].phases[p].weeks| == m + 1)
            && (WeekKey(m + 1) !in ph.weeks ==> DocTally(r) == DocTally(doc))
  {
    var i := FindSection(doc.sections, sid).value;
    var ph := doc.sections[i].phases[p];
    var m := |ph.weeks|;
    PutWeekTally(doc, i, p, WeekKey(m + 1), NewWeek(m + 1));
    assert ph.weeks[WeekKey(m + 1) := NewWeek(m + 1)].Keys == ph.weeks.Keys + {WeekKey(m + 1)};
  }

  /** After a deletion the week keys need not be `semaine1`..`semainem`: with
      weeks `semaine1` and `semaine3`, adding a week writes over `semaine3`
      and the phase still has two weeks. */
  lemma AddWeekOverwrites(w1: Week, w3: Week)
    requires w3 != NewWeek(3)
    ensures var s := Section("s", "S", "blue", true,
                             map["p" := Phase("P", 1, map["semaine1" := w1, "semaine3" := w3])]);
            var after := AddWeek(Doc([s]), "s", "p").sections[0].phases["p"].weeks;
            && |after| == 2
            && after["semaine3"] == NewWeek(3)
            && after["semaine3"] != w3
  {
    var weeks := map["semaine1" := w1, "semaine3" := w3];
    assert |weeks| == 2 by {
      assert weeks.Keys == {"semaine1", "semaine3"};
    }
    assert WeekKey(3) == "semaine3";
    var doc := Doc([Section("s", "S", "blue", true, map["p" := Phase("P", 1, weeks)])]);
    var after := AddWeek(doc, "s", "p").sections[0].phases["p"].weeks;
    assert after == weeks["semaine3" := NewWeek(3)];
    assert after.Keys == {"semaine1", "semaine3"};
  }

  /** `addWeek` as evidently intended: the new week goes under the first free
      key from `semaine{m+1}` on, so no existing week is replaced. */
  function AddWeekFresh(doc: Doc, sid: string, p: string): Doc
  {
    match FindSection(doc.sections, sid)
    case None => doc
    case Some(i) =>
      if HasPhase(doc, i, p) then
        var weeks := doc.sections[i].phases[p].weeks;
        var m := |weeks|;
        PutWeek(doc, i, p, WeekKey(FreeNumber(weeks.Keys, "semaine", m + 1)), NewWeek(m + 1))
      else doc
  }

  /** With fresh keys every add grows the phase by exactly one new week,
      whatever was deleted before, keeps every other week and leaves the
      statistics unchanged. */
  lemma AddWeekFreshGrows(doc: Doc, sid: string, p: string)
    requires FindSection(doc.sections, sid).Some?
    requires HasPhase(doc, FindSection(doc.sections, sid).value, p)
    ensures var i := FindSection(doc.sections, sid).value;
            var before := doc.sections[i].phases[p].weeks;
            var r := AddWeekFresh(doc, sid, p);
            && HasPhase(r, i, p)
            && var after := r.sections[i].phases[p].weeks;
               && |after| == |before| + 1
               && (forall w :: w in before ==> w in after && after[w] == before[w])
               && (exists w :: w !in before && w in after && after[w] == NewWeek(|before| + 1))
    ensures DocTally(AddWeekFresh(doc, sid, p)) == DocTally(doc)
  {
    var i := FindSection(doc.sections, sid).value;
    var weeks := doc.sections[i].phases[p].weeks;
    var m := |weeks|;
    var key := WeekKey(FreeNumber(weeks.Keys, "semaine", m + 1));
    assert key !in weeks;
    PutWeekTally(doc, i, p, key, NewWeek(m + 1));
    assert weeks[key := NewWeek(m + 1)].Keys == weeks.Keys + {key};
  }

  /** `deleteWeek`: phase p of the first section with the id loses the week
      key and keeps its title and order. */
  function DeleteWeek(doc: Doc, sid: string, p: string, w: string): Doc
  {
    match FindSection(doc.sections, sid)
    case None => doc
    case Some(i) =>
      if HasPhase(doc, i, p) then
        var s := doc.sections[i];
        var ph := s.phases[p];
        PutSection(doc, i, s.(phases := s.phases[p := ph.(weeks := ph.weeks - {w})]))
      else doc
  }

  /** Deleting a week removes exactly its tasks from the statistics. */
  lemma DeleteWeekTally(doc: Doc, sid: string, p: string, w: string)
    requires FindSection(doc.sections, sid).Some?
    requires HasPhase(doc, FindSection(doc.sections, sid).value, p)
    ensures var weeks := doc.sections[FindSection(doc.sections, sid).value].phases[p].weeks;
            Plus(DocTally(DeleteWeek(doc, sid, p, w)), if w in weeks then TasksTally(weeks[w].tasks) else NoTally)
            == DocTally(doc)
  {
    var i := FindSection(doc.sections, sid).value;
    var ph := doc.sections[i].phases[p];
    var ph' := ph.(weeks := ph.weeks - {w});
    var o := if w in ph.weeks then TasksTally(ph.weeks[w].tasks) else NoTally;
    var r := PutPhase(doc, i, p, ph');
    assert DeleteWeek(doc, sid, p, w) == r;
    var a, a' := WeeksTally(ph.weeks), WeeksTally(ph'.weeks);
    var x, y := DocTally(r), DocTally(doc);
    assert a == Plus(o, a') by {
      RemoveWeekTally(ph.weeks, w);
    }
    assert Plus(x, a) == Plus(y, a') by {
      PutPhaseTally(doc, i, p, ph');
    }
    PlusCancel(x, y, o, a');
  }

  /** The phase loses the week key and nothing else: its other weeks, its
      title and order, the other phases and the other sections stay. */
  lemma DeleteWeekRemoves(doc: Doc, sid: string, p: string, w: string)
    requires FindSection(doc.sections, sid).Some?
    requires HasPhase(doc, FindSection(doc.sections, sid).value, p)
    ensures var i := FindSection(doc.sections, sid).value;
            var r := DeleteWeek(doc, sid, p, w);
            var ph := doc.sections[i].phases[p];
            && HasPhase(r, i, p)
            && w !in r.sections[i].phases[p].weeks
            && r.sections[i].phases[p].weeks == ph.weeks - {w}
            && |r.sections[i].phases[p].weeks| == |ph.weeks| - (if w in ph.weeks then 1 else 0)
            && r.sections[i].phases[p].title == ph.title && r.sections[i].phases[p].order == ph.order
            && r.sections[i].phases - {p} == doc.sections[i].phases - {p}
            && |r.sections| == |doc.sections|
            && (forall k :: 0 <= k < |doc.sections| && k != i ==> r.sections[k] == doc.sections[k])
  {
    var i := FindSection(doc.sections, sid).value;
    var ph := doc.sections[i].phases[p];
    if w in ph.weeks {
      assert ph.weeks.Keys == (ph.weeks - {w}).Keys + {w};
    } else {
      RemoveAbsent(ph.weeks, w);
    }
  }

  lemma PlusCancel(x: Tally, y: Tally, o: Tally, a: Tally)
    requires Plus(x, Plus(o, a)) == Plus(y, a)
    ensures Plus(x, o) == y
  {
  }

  /** Stores `ph` as phase p of section i. */
  function PutPhase(doc: Doc, i: nat, p: string, ph: Phase): Doc
    requires i < |doc.sections|
  {
    PutSection(doc, i, doc.sections[i].(phases := doc.sections[i].phases[p := ph]))
  }

  /** Storing a phase changes the document's tally by the difference of the
      two phases' weeks. */
  lemma PutPhaseTally(doc: Doc, i: nat, p: string, ph: Phase)
    requires HasPhase(doc, i, p)
    ensures Plus(DocTally(PutPhase(doc, i, p, ph)), WeeksTally(doc.sections[i].phases[p].weeks))
         == Plus(DocTally(doc), WeeksTally(ph.weeks))
  {
    var s := doc.sections[i];
    var s' := s.(phases := s.phases[p := ph]);
    assert PutPhase(doc, i, p, ph).sections == doc.sections[i := s'];
    var a, a' := WeeksTally(s.phases[p].weeks), WeeksTally(ph.weeks);
    var b, b' := PhasesTally(s.phases), PhasesTally(s'.phases);
    var c, c' := SectionsTally(doc.sections), SectionsTally(doc.sections[i := s']);
    assert Plus(b', a) == Plus(b, a') by {
      PhasesTallyPut(s.phases, p, ph);
    }
    assert Plus(c', b) == Plus(c, b') by {
      SectionsTallyPut(doc.sections, i, s');
    }
  }

  // ---------------------------------------------------------------------------
  // Task edits: add, delete, toggle, move.
  // ---------------------------------------------------------------------------

  /** The task `addTask` appends; `id` stands for the generated id. */
  function NewTask(id: string): Task
  {
    Task(id, "Nouvelle tâche", "Task", false, Count(0))
  }

  /** `addTask`: appends a new pending task without votes to the week, or
      leaves the document as it is when the section, phase or week is missing. */
  function AddTask(doc: Doc, sid: string, p: string, w: string, id: string): Doc
  {
    match Resolve(doc, sid, p, w)
    case None => doc
    case Some(i) =>
      var wk := WeekAt(doc, i, p, w);
      PutWeek(doc, i, p, w, wk.(tasks := wk.tasks + [NewTask(id)]))
  }

  /** The week ends with one more task, pending and with zero votes, the
      earlier tasks unchanged. */
  lemma AddTaskAppends(doc: Doc, sid: string, p: string, w: string, id: string)
    requires Resolve(doc, sid, p, w).Some?
    ensures var i := Resolve(doc, sid, p, w).value;
            var before := WeekAt(doc, i, p, w).tasks;
            var r := AddTask(doc, sid, p, w, id);
            var after := WeekAt(r, i, p, w).tasks;
            && |after| == |before| + 1
            && after[..|before|] == before
            && after[|before|].id == id && !after[|before|].completed && after[|before|].votes == Count(0)
  {
    var i := Resolve(doc, sid, p, w).value;
    var wk := WeekAt(doc, i, p, w);
    var tasks := wk.tasks + [NewTask(id)];
    assert WeekAt(AddTask(doc, sid, p, w, id), i, p, w).tasks == tasks;
    assert tasks[..|wk.tasks|] == wk.tasks;
  }

  /** The document counts one more task, and no more completed tasks or votes. */
  lemma AddTaskTally(doc: Doc, sid: string, p: string, w: string, id: string)
    requires Resolve(doc, sid, p, w).Some?
    ensures var before, after := DocTally(doc), DocTally(AddTask(doc, sid, p, w, id));
            after == Tally(before.total + 1, before.completed, before.votes)
  {
    var i := Resolve(doc, sid, p, w).value;
    var wk := WeekAt(doc, i, p, w);
    var wk' := wk.(tasks := wk.tasks + [NewTask(id)]);
    var r := PutWeek(doc, i, p, w, wk');
    assert AddTask(doc, sid, p, w, id) == r;
    var o, n := TasksTally(wk.tasks), TasksTally(wk'.tasks);
    var x, y := DocTally(r), DocTally(doc);
    assert Plus(x, o) == Plus(y, n) by {
      PutWeekTally(doc, i, p, w, wk');
    }
    assert n == Plus(o, Tally(1, 0, 0)) by {
      TasksTallySnoc(wk.tasks, NewTask(id));
      assert TaskTally(NewTask(id)) == Tally(1, 0, 0);
    }
    PlusCancel(y, x, Tally(1, 0, 0), o);
  }

  /** `tasks.filter(t => t.id !== tid)`. */
  function FilterTasks(tasks: seq<Task>, tid: string): (r: seq<Task>)
    ensures forall k :: 0 <= k < |r| ==> r[k].id != tid
    ensures |r| + CountId(tasks, tid) == |tasks|
  {
    if tasks == [] then []
    else if tasks[0].id == tid then FilterTasks(tasks[1..], tid)
    else [tasks[0]] + FilterTasks(tasks[1..], tid)
  }

  /** How many tasks carry the id. */
  function CountId(tasks: seq<Task>, tid: string): (r: nat)
    ensures r == 0 <==> forall k :: 0 <= k < |tasks| ==> tasks[k].id != tid
    ensures r <= |tasks|
  {
    if tasks == [] then 0
    else (if tasks[0].id == tid then 1 else 0) + CountId(tasks[1..], tid)
  }

  /** The filter keeps every task without the id and adds none. */
  lemma {:induction false} FilterTasksKeeps(tasks: seq<Task>, tid: string)
    ensures forall t :: t in FilterTasks(tasks, tid) ==> t in tasks
    ensures forall t :: t in tasks && t.id != tid ==> t in FilterTasks(tasks, tid)
  {
    if tasks != [] {
      FilterTasksKeeps(tasks[1..], tid);
      assert tasks == [tasks[0]] + tasks[1..];
    }
  }

  /** The filter keeps the order of what it keeps. */
  lemma {:induction false} FilterTasksAppend(a: seq<Task>, b: seq<Task>, tid: string)
    ensures FilterTasks(a + b, tid) == FilterTasks(a, tid) + FilterTasks(b, tid)
  {
    if a == [] {
      assert a + b == b;
    } else {
      var x, a' := a[0], a[1..];
      var fa, fb := FilterTasks(a', tid), FilterTasks(b, tid);
      calc {
        FilterTasks(a + b, tid);
        { assert a + b == [x] + (a' + b); }
        FilterTasks([x] + (a' + b), tid);
        { FilterTasksCons(x, a' + b, tid); }
        if x.id == tid then FilterTasks(a' + b, tid) else [x] + FilterTasks(a' + b, tid);
        { FilterTasksAppend(a', b, tid); }
        if x.id == tid then fa + fb else [x] + (fa + fb);
        { assert [x] + (fa + fb) == ([x] + fa) + fb; }
        (if x.id == tid then fa else [x] + fa) + fb;
        { FilterTasksCons(x, a', tid); assert a == [x] + a'; }
        FilterTasks(a, tid) + fb;
      }
    }
  }

  /** The filter on a list with a known last task. */
  lemma FilterTasksSnoc(a: seq<Task>, x: Task, tid: string)
    ensures FilterTasks(a + [x], tid) == FilterTasks(a, tid) + (if x.id == tid then [] else [x])
  {
    FilterTasksAppend(a, [x], tid);
    FilterTasksCons(x, [], tid);
    assert [x] + [] == [x];
  }

  /** The filter on a list with a known head. */
  lemma FilterTasksCons(x: Task, rest: seq<Task>, tid: string)
    ensures FilterTasks([x] + rest, tid)
         == if x.id == tid then FilterTasks(rest, tid) else [x] + FilterTasks(rest, tid)
  {
    assert ([x] + rest)[1..] == rest;
  }

  /** `deleteTask`: the week loses every task with the id and keeps the others
      in order. */
  function DeleteTask(doc: Doc, sid: string, p: string, w: string, tid: string): Doc
  {
    match Resolve(doc, sid, p, w)
    case None => doc
    case Some(i) =>
      var wk := WeekAt(doc, i, p, w);
      PutWeek(doc, i, p, w, wk.(tasks := FilterTasks(wk.tasks, tid)))
  }

  /** The week keeps, in order, exactly the tasks without the id: none with
      the id remains, every other task is still there, and nothing is added. */
  lemma DeleteTaskRemoves(doc: Doc, sid: string, p: string, w: string, tid: string)
    requires Resolve(doc, sid, p, w).Some?
    ensures var i := Resolve(doc, sid, p, w).value;
            var before := WeekAt(doc, i, p, w).tasks;
            var r := DeleteTask(doc, sid, p, w, tid);
            HasWeek(r, i, p, w) &&
            var after := WeekAt(r, i, p, w).tasks;
            && (forall k :: 0 <= k < |after| ==> after[k].id != tid)
            && (forall t :: t in before && t.id != tid ==> t in after)
            && (forall t :: t in after ==> t in before)
            && |after| + CountId(before, tid) == |before|
  {
    var i := Resolve(doc, sid, p, w).value;
    FilterTasksKeeps(WeekAt(doc, i, p, w).tasks, tid);
  }

  /** The document loses exactly as many tasks as the week held with the id. */
  lemma DeleteTaskCount(doc: Doc, sid: string, p: string, w: string, tid: string)
    requires Resolve(doc, sid, p, w).Some?
    ensures var i := Resolve(doc, sid, p, w).value;
            DocTally(DeleteTask(doc, sid, p, w, tid)).total
              + CountId(WeekAt(doc, i, p, w).tasks, tid) == DocTally(doc).total
  {
    var i := Resolve(doc, sid, p, w).value;
    var wk := WeekAt(doc, i, p, w);
    PutWeekTally(doc, i, p, w, wk.(tasks := FilterTasks(wk.tasks, tid)));
  }

  function Flip(t: Task): Task
  {
    t.(completed := !t.completed)
  }

  /** `handleTaskToggle`: flips `completed` of the first task with the id. */
  function ToggleTask(doc: Doc, sid: string, p: string, w: string, tid: string): Doc
  {
    match Resolve(doc, sid, p, w)
    case None => doc
    case Some(i) =>
      var wk := WeekAt(doc, i, p, w);
      match FindTask(wk.tasks, tid)
      case None => doc
      case Some(j) => PutWeek(doc, i, p, w, wk.(tasks := wk.tasks[j := Flip(wk.tasks[j])]))
  }

  /** The toggled task differs only in `completed`, every other task of the
      week is unchanged, and the document's task and vote counts stay. */
  lemma ToggleTaskOnly(doc: Doc, sid: string, p: string, w: string, tid: string)
    requires Targets(doc, sid, p, w, tid)
    ensures var i := Resolve(doc, sid, p, w).value;
            var before := WeekAt(doc, i, p, w).tasks;
            var j := FindTask(before, tid).value;
            var r := ToggleTask(doc, sid, p, w, tid);
            var after := WeekAt(r, i, p, w).tasks;
            && |after| == |before|
            && after[j].completed == !before[j].completed
            && after[j].(completed := before[j].completed) == before[j]
            && (forall k :: 0 <= k < |before| && k != j ==> after[k] == before[k])
            && DocTally(r).total == DocTally(doc).total
            && DocTally(r).votes == DocTally(doc).votes
  {
    var i := Resolve(doc, sid, p, w).value;
    var wk := WeekAt(doc, i, p, w);
    var j := FindTask(wk.tasks, tid).value;
    PutWeekTally(doc, i, p, w, wk.(tasks := wk.tasks[j := Flip(wk.tasks[j])]));
    TasksTallyUpdate(wk.tasks, j, Flip(wk.tasks[j]));
  }

  /** Toggling the same task twice restores the document. */
  lemma ToggleTaskTwice(doc: Doc, sid: string, p: string, w: string, tid: string)
    ensures ToggleTask(ToggleTask(doc, sid, p, w, tid), sid, p, w, tid) == doc
  {
    if Targets(doc, sid, p, w, tid) {
      var i := Resolve(doc, sid, p, w).value;
      var wk := WeekAt(doc, i, p, w);
      var j := FindTask(wk.tasks, tid).value;
      var wk' := wk.(tasks := wk.tasks[j := Flip(wk.tasks[j])]);
      var doc' := PutWeek(doc, i, p, w, wk');
      ResolveAfterPutWeek(doc, i, p, w, wk', sid, p, w);
      FindTaskSameIds(wk'.tasks, wk.tasks, tid);
      assert wk'.(tasks := wk'.tasks[j := Flip(wk'.tasks[j])]) == wk;
      PutWeekTwice(doc, i, p, w, wk', wk);
      PutWeekSame(doc, i, p, w);
    }
  }

  /** Exchanges the tasks at j and k. */
  function Swap(tasks: seq<Task>, j: nat, k: nat): (r: seq<Task>)
    requires j < |tasks| && k < |tasks|
    ensures |r| == |tasks| && r[j] == tasks[k] && r[k] == tasks[j]
    ensures forall m :: 0 <= m < |tasks| && m != j && m != k ==> r[m] == tasks[m]
    ensures multiset(r) == multiset(tasks)
  {
    tasks[j := tasks[k]][k := tasks[j]]
  }

  /** `moveTask`: "up" exchanges the first task with the id and the one
      before it, "down" the one after it; at either end of the week, or for
      any other direction, nothing moves. The source reads the week without
      checking that it exists and breaks the week when the task is missing,
      so both are required here. */
  function MoveTask(doc: Doc, sid: string, p: string, w: string, tid: string, direction: string): Doc
    requires Targets(doc, sid, p, w, tid)
  {
    var i := Resolve(doc, sid, p, w).value;
    var wk := WeekAt(doc, i, p, w);
    var j := FindTask(wk.tasks, tid).value;
    if direction == "up" && j > 0 then
      PutWeek(doc, i, p, w, wk.(tasks := Swap(wk.tasks, j, j - 1)))
    else if direction == "down" && j < |wk.tasks| - 1 then
      PutWeek(doc, i, p, w, wk.(tasks := Swap(wk.tasks, j, j + 1)))
    else doc
  }

  /** A move keeps the week's tasks as a multiset and every statistic of the
      document. */
  lemma MoveTaskPermutes(doc: Doc, sid: string, p: string, w: string, tid: string, direction: string)
    requires Targets(doc, sid, p, w, tid)
    ensures var i := Resolve(doc, sid, p, w).value;
            var r := MoveTask(doc, sid, p, w, tid, direction);
            && HasWeek(r, i, p, w)
            && multiset(WeekAt(r, i, p, w).tasks) == multiset(WeekAt(doc, i, p, w).tasks)
            && DocTally(r) == DocTally(doc)
  {
    var i := Resolve(doc, sid, p, w).value;
    var wk := WeekAt(doc, i, p, w);
    var j := FindTask(wk.tasks, tid).value;
    if direction == "up" && j > 0 {
      PutSwapped(doc, i, p, w, j, j - 1);
    } else if direction == "down" && j < |wk.tasks| - 1 {
      PutSwapped(doc, i, p, w, j, j + 1);
    }
  }

  /** Where a move goes: "up" from a task that is not first exchanges it with
      the one before it, "down" from a task that is not last with the one
      after it; at the first place going up, at the last going down, or for
      any other direction, the document is unchanged. */
  lemma MoveTaskEnds(doc: Doc, sid: string, p: string, w: string, tid: string, direction: string)
    requires Targets(doc, sid, p, w, tid)
    ensures var i := Resolve(doc, sid, p, w).value;
            var tasks := WeekAt(doc, i, p, w).tasks;
            var j := FindTask(tasks, tid).value;
            var r := MoveTask(doc, sid, p, w, tid, direction);
            && (direction == "up" && j == 0 ==> r == doc)
            && (direction == "down" && j == |tasks| - 1 ==> r == doc)
            && (direction != "up" && direction != "down" ==> r == doc)
            && (direction == "up" && j > 0 ==>
                  HasWeek(r, i, p, w) && WeekAt(r, i, p, w).tasks == Swap(tasks, j, j - 1))
            && (direction == "down" && j < |tasks| - 1 ==>
                  HasWeek(r, i, p, w) && WeekAt(r, i, p, w).tasks == Swap(tasks, j, j + 1))
  {
    var i := Resolve(doc, sid, p, w).value;
    var wk := WeekAt(doc, i, p, w);
    var j := FindTask(wk.tasks, tid).value;
    if direction == "up" && j > 0 {
      assert MoveTask(doc, sid, p, w, tid, direction) == PutWeek(doc, i, p, w, wk.(tasks := Swap(wk.tasks, j, j - 1)));
    } else if direction == "down" && j < |wk.tasks| - 1 {
      assert MoveTask(doc, sid, p, w, tid, direction) == PutWeek(doc, i, p, w, wk.(tasks := Swap(wk.tasks, j, j + 1)));
    } else {
      assert MoveTask(doc, sid, p, w, tid, direction) == doc;
    }
  }

  lemma SwapTally(tasks: seq<Task>, j: nat, k: nat)
    requires j < |tasks| && k < |tasks|
    ensures TasksTally(Swap(tasks, j, k)) == TasksTally(tasks)
  {
    if j == k {
      assert Swap(tasks, j, k) == tasks;
    } else {
      var mid := tasks[j := tasks[k]];
      var tj, tk := TaskTally(tasks[j]), TaskTally(tasks[k]);
      var a, m, z := TasksTally(tasks), TasksTally(mid), TasksTally(mid[k := tasks[j]]);
      assert Plus(m, tj) == Plus(a, tk) by {
        TasksTallyUpdate(tasks, j, tasks[k]);
      }
      assert Plus(z, tk) == Plus(m, tj) by {
        assert mid[k] == tasks[k];
        TasksTallyUpdate(mid, k, tasks[j]);
      }
      assert z == a;
    }
  }

  /** Writing back the week with two of its tasks exchanged keeps the
      statistics and the tasks as a multiset. */
  lemma PutSwapped(doc: Doc, i: nat, p: string, w: string, j: nat, k: nat)
    requires HasWeek(doc, i, p, w)
    requires j < |WeekAt(doc, i, p, w).tasks| && k < |WeekAt(doc, i, p, w).tasks|
    ensures var wk := WeekAt(doc, i, p, w);
            var r := PutWeek(doc, i, p, w, wk.(tasks := Swap(wk.tasks, j, k)));
            && multiset(WeekAt(r, i, p, w).tasks) == multiset(wk.tasks)
            && DocTally(r) == DocTally(doc)
  {
    var wk := WeekAt(doc, i, p, w);
    var wk' := wk.(tasks := Swap(wk.tasks, j, k));
    assert TasksTally(wk'.tasks) == TasksTally(wk.tasks) by {
      SwapTally(wk.tasks, j, k);
    }
    PutWeekTally(doc, i, p, w, wk');
  }

  /** Moving a task up and then down again restores the document. */
  lemma MoveTaskUpDown(doc: Doc, sid: string, p: string, w: string, tid: string)
    requires Targets(doc, sid, p, w, tid)
    requires FindTask(WeekAt(doc, Resolve(doc, sid, p, w).value, p, w).tasks, tid).value > 0
    ensures var up := MoveTask(doc, sid, p, w, tid, "up");
            Targets(up, sid, p, w, tid) && MoveTask(up, sid, p, w, tid, "down") == doc
  {
    var i := Resolve(doc, sid, p, w).value;
    var wk := WeekAt(doc, i, p, w);
    var j := FindTask(wk.tasks, tid).value;
    var wk' := wk.(tasks := Swap(wk.tasks, j, j - 1));
    var up := PutWeek(doc, i, p, w, wk');
    assert MoveTask(doc, sid, p, w, tid, "up") == up;
    ResolveAfterPutWeek(doc, i, p, w, wk', sid, p, w);
    assert WeekAt(up, i, p, w) == wk';
    SwapUpFind(wk.tasks, tid, j);
    assert MoveTask(up, sid, p, w, tid, "down") == PutWeek(up, i, p, w, wk);
    PutWeekTwice(doc, i, p, w, wk', wk);
    PutWeekSame(doc, i, p, w);
  }

  /** After a task moves up it is found one place earlier, and moving it down
      again restores the week. */
  lemma SwapUpFind(tasks: seq<Task>, tid: string, j: nat)
    requires FindTask(tasks, tid) == Some(j) && j > 0
    ensures FindTask(Swap(tasks, j, j - 1), tid) == Some(j - 1)
    ensures j - 1 < |tasks| - 1 && Swap(Swap(tasks, j, j - 1), j - 1, j) == tasks
  {
    var moved := Swap(tasks, j, j - 1);
    forall m | 0 <= m < j - 1
      ensures moved[m].id != tid
    {
      assert moved[m] == tasks[m];
    }
    assert Swap(moved, j - 1, j) == tasks;
  }

  // ---------------------------------------------------------------------------
  // handleDrop
  // ---------------------------------------------------------------------------

  /** A week named by section id, phase key and week key. */
  datatype Slot = Slot(sectionId: string, phase: string, week: string)

  function ResolveSlot(doc: Doc, at: Slot): Option<nat>
  {
    Resolve(doc, at.sectionId, at.phase, at.week)
  }

  /** The source half of a drop: the week loses every task with the id. */
  function TakeOut(doc: Doc, from: Slot, tid: string): Doc
  {
    DeleteTask(doc, from.sectionId, from.phase, from.week, tid)
  }

  /** The destination half of a drop: the task is appended to the week. */
  function PutIn(doc: Doc, to: Slot, task: Task): Doc
  {
    match ResolveSlot(doc, to)
    case None => doc
    case Some(i) =>
      var wk := WeekAt(doc, i, to.phase, to.week);
      PutWeek(doc, i, to.phase, to.week, wk.(tasks := wk.tasks + [task]))
  }

  /** `handleDrop` of `task`, dragged from week `from`, onto week `to`: nothing
      when the two are the same week; otherwise every task with its id leaves
      `from` (if that week exists) and the task is appended to `to` (if that
      week exists). */
  function DropTask(doc: Doc, from: Slot, to: Slot, task: Task): Doc
  {
    if from == to then doc
    else PutIn(TakeOut(doc, from, task.id), to, task)
  }

  /** What a drop does to the number of tasks: those with the id leave the
      source week, one arrives in the destination week. When both weeks exist
      and the source held the task once, the count is unchanged; when the
      destination is missing, the task is gone. */
  lemma DropTaskCount(doc: Doc, from: Slot, to: Slot, task: Task)
    requires from != to
    ensures var removed := if ResolveSlot(doc, from).Some?
                           then CountId(WeekAt(doc, ResolveSlot(doc, from).value, from.phase, from.week).tasks, task.id)
                           else 0;
            var added := if ResolveSlot(doc, to).Some? then 1 else 0;
            DocTally(DropTask(doc, from, to, task)).total + removed == DocTally(doc).total + added
  {
    var mid := TakeOut(doc, from, task.id);
    if ResolveSlot(doc, from).Some? {
      var i := ResolveSlot(doc, from).value;
      DeleteTaskCount(doc, from.sectionId, from.phase, from.week, task.id);
      var wk := WeekAt(doc, i, from.phase, from.week);
      ResolveAfterPutWeek(doc, i, from.phase, from.week, wk.(tasks := FilterTasks(wk.tasks, task.id)),
                          to.sectionId, to.phase, to.week);
    }
    assert ResolveSlot(mid, to) == ResolveSlot(doc, to);
    if ResolveSlot(mid, to).Some? {
      var k := ResolveSlot(mid, to).value;
      var wk := WeekAt(mid, k, to.phase, to.week);
      PutWeekTally(mid, k, to.phase, to.week, wk.(tasks := wk.tasks + [task]));
    }
  }

  /** After a drop onto an existing week the task is that week's last task. */
  lemma DropTaskLands(doc: Doc, from: Slot, to: Slot, task: Task)
    requires from != to && ResolveSlot(doc, to).Some?
    ensures var k := ResolveSlot(doc, to).value;
            var r := DropTask(doc, from, to, task);
            HasWeek(r, k, to.phase, to.week) &&
            var tasks := WeekAt(r, k, to.phase, to.week).tasks;
            |tasks| > 0 && tasks[|tasks| - 1] == task
  {
    var mid := TakeOut(doc, from, task.id);
    if ResolveSlot(doc, from).Some? {
      var i := ResolveSlot(doc, from).value;
      var wk := WeekAt(doc, i, from.phase, from.week);
      ResolveAfterPutWeek(doc, i, from.phase, from.week, wk.(tasks := FilterTasks(wk.tasks, task.id)),
                          to.sectionId, to.phase, to.week);
    }
    assert ResolveSlot(mid, to) == ResolveSlot(doc, to);
  }

  // ---------------------------------------------------------------------------
  // saveEdit
  // ---------------------------------------------------------------------------

  /** The fields a section form submits; `phases` is None when the form data
      carries none. */
  datatype SectionForm = SectionForm(id: string, title: string, color: string, active: bool,
                                     phases: Option<map<string, Phase>>)

  /** The edit in progress: which kind of item, where it is, and the data the
      form submitted. */
  datatype Edit =
    | NoEdit
    | EditSection(sectionId: string, form: SectionForm)
    | EditPhase(sectionId: string, phase: string, title: string, order: int)
    | EditWeek(sectionId: string, phase: string, week: string, title: string, order: int, badge: Option<string>)
    | EditTask(sectionId: string, phase: string, week: string, taskId: string, data: Task)

  function SaveSection(doc: Doc, sid: string, form: SectionForm): Doc
  {
    match FindSection(doc.sections, sid)
    case None => doc
    case Some(i) =>
      var phases := if form.phases.Some? then form.phases.value else doc.sections[i].phases;
      PutSection(doc, i, Section(form.id, form.title, form.color, form.active, phases))
  }

  function SavePhase(doc: Doc, sid: string, p: string, title: string, order: int): Doc
  {
    match FindSection(doc.sections, sid)
    case None => doc
    case Some(i) =>
      if HasPhase(doc, i, p) then
        var s := doc.sections[i];
        PutSection(doc, i, s.(phases := s.phases[p := s.phases[p].(title := title, order := order)]))
      else doc
  }

  function SaveWeek(doc: Doc, sid: string, p: string, w: string, title: string, order: int,
                    badge: Option<string>): Doc
  {
    match FindSection(doc.sections, sid)
    case None => doc
    case Some(i) =>
      if HasPhase(doc, i, p) then
        var weeks := doc.sections[i].phases[p].weeks;
        PutWeek(doc, i, p, w, Week(title, order, badge, if w in weeks then weeks[w].tasks else []))
      else doc
  }

  function SaveTask(doc: Doc, sid: string, p: string, w: string, tid: string, data: Task): Doc
  {
    match Resolve(doc, sid, p, w)
    case None => doc
    case Some(i) =>
      var wk := WeekAt(doc, i, p, w);
      var tasks := match FindTask(wk.tasks, tid)
                   case Some(j) => wk.tasks[j := data]
                   case None => wk.tasks + [data];
      PutWeek(doc, i, p, w, wk.(tasks := tasks))
  }

  /** `saveEdit`: applies the submitted form to the item being edited. */
  function SaveEdit(doc: Doc, edit: Edit): Doc
  {
    match edit
    case NoEdit => doc
    case EditSection(sid, form) => SaveSection(doc, sid, form)
    case EditPhase(sid, p, title, order) => SavePhase(doc, sid, p, title, order)
    case EditWeek(sid, p, w, title, order, badge) => SaveWeek(doc, sid, p, w, title, order, badge)
    case EditTask(sid, p, w, tid, data) => SaveTask(doc, sid, p, w, tid, data)
  }

  /** A section edit replaces the first section with the edited id by the
      form's fields, keeping its phases when the form has none; the other
      sections and their order stay. */
  lemma SaveSectionReplaces(doc: Doc, sid: string, form: SectionForm)
    requires FindSection(doc.sections, sid).Some?
    ensures var i := FindSection(doc.sections, sid).value;
            var r := SaveSection(doc, sid, form);
            && |r.sections| == |doc.sections|
            && r.sections[i].id == form.id && r.sections[i].title == form.title
            && r.sections[i].color == form.color && r.sections[i].active == form.active
            && r.sections[i].phases == (if form.phases.Some? then form.phases.value else doc.sections[i].phases)
            && (forall k :: 0 <= k < |doc.sections| && k != i ==> r.sections[k] == doc.sections[k])
  {
  }

  /** Every edit aimed at a section, phase or week that does not exist leaves
      the document as it was. */
  lemma EditsOfMissingTargets(doc: Doc, sid: string, p: string, w: string, tid: string)
    ensures FindSection(doc.sections, sid).None? ==>
              && AddPhase(doc, sid) == doc && DeletePhase(doc, sid, p) == doc
              && AddWeek(doc, sid, p) == doc && DeleteWeek(doc, sid, p, w) == doc
              && forall form :: SaveSection(doc, sid, form) == doc
    ensures (FindSection(doc.sections, sid).None? || !HasPhase(doc, FindSection(doc.sections, sid).value, p)) ==>
              && AddWeek(doc, sid, p) == doc && DeleteWeek(doc, sid, p, w) == doc
              && forall title, order :: SavePhase(doc, sid, p, title, order) == doc
    ensures Resolve(doc, sid, p, w).None? ==>
              && AddTask(doc, sid, p, w, tid) == doc && DeleteTask(doc, sid, p, w, tid) == doc
              && ToggleTask(doc, sid, p, w, tid) == doc
              && forall data :: SaveTask(doc, sid, p, w, tid, data) == doc
  {
  }

  /** A section form without phases keeps the section's phases, and with them
      every statistic. */
  lemma SaveSectionKeepsPhases(doc: Doc, sid: string, form: SectionForm)
    requires form.phases.None?
    ensures |SaveSection(doc, sid, form).sections| == |doc.sections|
    ensures forall k :: 0 <= k < |doc.sections| ==>
              SaveSection(doc, sid, form).sections[k].phases == doc.sections[k].phases
    ensures DocTally(SaveSection(doc, sid, form)) == DocTally(doc)
  {
    SectionsTallyPhasesOnly(SaveSection(doc, sid, form).sections, doc.sections);
  }

  /** A phase edit changes only the phase's title and order: its weeks, and
      every statistic, stay. */
  lemma SavePhaseKeepsWeeks(doc: Doc, sid: string, p: string, title: string, order: int)
    requires FindSection(doc.sections, sid).Some?
    requires HasPhase(doc, FindSection(doc.sections, sid).value, p)
    ensures var i := FindSection(doc.sections, sid).value;
            var r := SavePhase(doc, sid, p, title, order);
            && r.sections[i].phases[p].weeks == doc.sections[i].phases[p].weeks
            && r.sections[i].phases[p].title == title && r.sections[i].phases[p].order == order
            && r.sections[i].phases.Keys == doc.sections[i].phases.Keys
            && DocTally(r) == DocTally(doc)
  {
    var i := FindSection(doc.sections, sid).value;
    var s := doc.sections[i];
    var ph' := s.phases[p].(title := title, order := order);
    var s' := s.(phases := s.phases[p := ph']);
    assert SavePhase(doc, sid, p, title, order).sections == doc.sections[i := s'];
    PhasesTallyPut(s.phases, p, ph');
    SectionsTallyPut(doc.sections, i, s');
  }

  /** A week edit changes only the week's title, order and badge: its tasks,
      and every statistic, stay; a missing week is created empty. */
  lemma SaveWeekKeepsTasks(doc: Doc, sid: string, p: string, w: string, title: string, order: int,
                           badge: Option<string>)
    requires FindSection(doc.sections, sid).Some?
    requires HasPhase(doc, FindSection(doc.sections, sid).value, p)
    ensures var i := FindSection(doc.sections, sid).value;
            var weeks := doc.sections[i].phases[p].weeks;
            var r := SaveWeek(doc, sid, p, w, title, order, badge);
            && HasWeek(r, i, p, w)
            && WeekAt(r, i, p, w).tasks == (if w in weeks then weeks[w].tasks else [])
            && WeekAt(r, i, p, w).title == title && WeekAt(r, i, p, w).order == order
            && WeekAt(r, i, p, w).badge == badge
            && DocTally(r) == DocTally(doc)
  {
    var i := FindSection(doc.sections, sid).value;
    var weeks := doc.sections[i].phases[p].weeks;
    PutWeekTally(doc, i, p, w, Week(title, order, badge, if w in weeks then weeks[w].tasks else []));
  }

  /** A task edit replaces the first task with the edited id in place, or
      appends the data when no task has that id; the other tasks stay. */
  lemma SaveTaskPlaces(doc: Doc, sid: string, p: string, w: string, tid: string, data: Task)
    requires Resolve(doc, sid, p, w).Some?
    ensures var i := Resolve(doc, sid, p, w).value;
            var before := WeekAt(doc, i, p, w).tasks;
            var r := SaveTask(doc, sid, p, w, tid, data);
            HasWeek(r, i, p, w) &&
            var after := WeekAt(r, i, p, w).tasks;
            match FindTask(before, tid)
            case Some(j) => |after| == |before| && after[j] == data
                            && (forall k :: 0 <= k < |before| && k != j ==> after[k] == before[k])
                            && Plus(DocTally(r), TaskTally(before[j])) == Plus(DocTally(doc), TaskTally(data))
            case None => after == before + [data]
                         && DocTally(r) == Plus(DocTally(doc), TaskTally(data))
  {
    var i := Resolve(doc, sid, p, w).value;
    var wk := WeekAt(doc, i, p, w);
    match FindTask(wk.tasks, tid)
    case Some(j) =>
      PutWeekTally(doc, i, p, w, wk.(tasks := wk.tasks[j := data]));
      TasksTallyUpdate(wk.tasks, j, data);
    case None =>
      PutWeekTally(doc, i, p, w, wk.(tasks := wk.tasks + [data]));
      TasksTallyAppend(wk.tasks, [data]);
      assert [data][1..] == [];
  }
}
