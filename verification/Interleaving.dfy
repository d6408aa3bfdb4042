/** Submissions that interleave: each saves its template in one transaction and its job or array in a later
    one, and any number of them run at the same time. */
module Interleaving {

  /** `templates` counts the template rows; the others list the template id in each of their rows.
      `holding` has the submitters that have saved a template and not yet what it is for. */
  datatype Rows = Rows(templates: nat, jobs: seq<nat>, arrays: seq<nat>, holding: map<nat, nat>)

  datatype Event = SaveTemplate(submitter: nat) | SaveJob(submitter: nat) | SaveArray(submitter: nat)

  predicate Enabled(r: Rows, e: Event) {
    match e
    case SaveTemplate(s) => s !in r.holding
    case _ => e.submitter in r.holding
  }

  function Apply(r: Rows, e: Event): Rows
    requires Enabled(r, e)
  {
    match e
    case SaveTemplate(s) => r.(templates := r.templates + 1, holding := r.holding[s := r.templates + 1])
    case SaveJob(s) => r.(jobs := r.jobs + [r.holding[s]], holding := r.holding - {s})
    case SaveArray(s) => r.(arrays := r.arrays + [r.holding[s]], holding := r.holding - {s})
  }

  ghost predicate IsRun(states: seq<Rows>, events: seq<Event>) {
    && |states| == |events| + 1 && states[0] == Rows(0, [], [], map[])
    && forall i :: 0 <= i < |events| ==> Follows(states, events, i)
  }

  ghost predicate Follows(states: seq<Rows>, events: seq<Event>, i: nat)
    requires i < |events| && |states| == |events| + 1
  {
    Enabled(states[i], events[i]) && states[i + 1] == Apply(states[i], events[i])
  }

  /** Every template row is for a job, for an array, or is held by a submission on its way. */
  predicate Counted(r: Rows) {
    r.templates == |r.jobs| + |r.arrays| + |r.holding|
  }

  lemma ApplyKeepsCount(r: Rows, e: Event)
    requires Enabled(r, e) && Counted(r)
    ensures Counted(Apply(r, e))
  {
    var s := e.submitter;
    var h := Apply(r, e).holding;
    if e.SaveTemplate? {
      assert h.Keys == r.holding.Keys + {s};
      assert |h| == |h.Keys| && |r.holding| == |r.holding.Keys|;
    } else {
      assert h.Keys == r.holding.Keys - {s};
      assert |h| == |h.Keys| && |r.holding| == |r.holding.Keys|;
    }
  }

  lemma {:induction false} RunIsCounted(states: seq<Rows>, events: seq<Event>, i: nat)
    requires IsRun(states, events) && i <= |events|
    ensures Counted(states[i])
  {
    hide Enabled, Apply;
    if i == 0 {
      assert Counted(Rows(0, [], [], map[]));
    } else {
      RunIsCounted(states, events, i - 1);
      assert Follows(states, events, i - 1);
      ApplyKeepsCount(states[i - 1], events[i - 1]);
    }
  }

  // ---------------------------------------------------------------- whose each template row is

  /** Every id of a template row is with one job, with one array, or held by one submission. */
  ghost predicate Owned(r: Rows) {
    && (forall n: nat :: 1 <= n <= r.templates <==> n in r.jobs || n in r.arrays || n in r.holding.Values)
    && (forall i, j :: 0 <= i < j < |r.jobs| ==> r.jobs[i] != r.jobs[j])
    && (forall i, j :: 0 <= i < j < |r.arrays| ==> r.arrays[i] != r.arrays[j])
    && (forall s, t :: s in r.holding && t in r.holding && s != t ==> r.holding[s] != r.holding[t])
    && (forall n :: n in r.jobs ==> n !in r.arrays && n !in r.holding.Values)
    && (forall n :: n in r.arrays ==> n !in r.holding.Values)
  }

  lemma SaveTemplateKeepsOwners(r: Rows, s: nat)
    requires Enabled(r, SaveTemplate(s)) && Owned(r)
    ensures Owned(Apply(r, SaveTemplate(s)))
  {
    var n := r.templates + 1;
    var h := r.holding[s := n];
    assert n !in r.jobs && n !in r.arrays && n !in r.holding.Values;
    AddedValue(r.holding, s, n);
    forall t, u | t in h && u in h && t != u ensures h[t] != h[u] {
      assert t != s ==> h[t] in r.holding.Values;
      assert u != s ==> h[u] in r.holding.Values;
    }
  }

  lemma AddedValue(h: map<nat, nat>, s: nat, n: nat)
    requires s !in h
    ensures h[s := n].Values == h.Values + {n}
  {
    var h' := h[s := n];
    forall v | v in h.Values ensures v in h'.Values {
      var t :| t in h && h[t] == v;
      assert t in h' && h'[t] == v;
    }
    assert s in h' && h'[s] == n;
  }

  lemma TakenValue(h: map<nat, nat>, s: nat)
    requires s in h && forall t, u :: t in h && u in h && t != u ==> h[t] != h[u]
    ensures (h - {s}).Values == h.Values - {h[s]}
  {
    var h' := h - {s};
    forall v | v in h.Values && v != h[s] ensures v in h'.Values {
      var t :| t in h && h[t] == v;
      assert t in h' && h'[t] == v;
    }
    forall v | v in h'.Values ensures v in h.Values && v != h[s] {
      var t :| t in h' && h'[t] == v;
      assert t in h;
    }
  }

  lemma SaveJobKeepsOwners(r: Rows, s: nat)
    requires Enabled(r, SaveJob(s)) && Owned(r)
    ensures Owned(Apply(r, SaveJob(s)))
  {
    TakenValue(r.holding, s);
    assert r.holding[s] in r.holding.Values;
  }

  lemma SaveArrayKeepsOwners(r: Rows, s: nat)
    requires Enabled(r, SaveArray(s)) && Owned(r)
    ensures Owned(Apply(r, SaveArray(s)))
  {
    TakenValue(r.holding, s);
    assert r.holding[s] in r.holding.Values;
  }

  lemma {:induction false} RunIsOwned(states: seq<Rows>, events: seq<Event>, i: nat)
    requires IsRun(states, events) && i <= |events|
    ensures Owned(states[i])
  {
    hide Enabled, Apply, Owned;
    if i == 0 {
      NothingOwned();
    } else {
      RunIsOwned(states, events, i - 1);
      assert Follows(states, events, i - 1);
      match events[i - 1]
      case SaveTemplate(s) => SaveTemplateKeepsOwners(states[i - 1], s);
      case SaveJob(s) => SaveJobKeepsOwners(states[i - 1], s);
      case SaveArray(s) => SaveArrayKeepsOwners(states[i - 1], s);
    }
  }

  lemma NothingOwned()
    ensures Owned(Rows(0, [], [], map[]))
  {
  }

  /** A submission does nothing between its two transactions. */
  ghost predicate Between(events: seq<Event>, t: nat, i: nat, s: nat)
    requires t < i <= |events|
  {
    forall m :: t < m < i ==> events[m].submitter != s
  }

  /** What a submission holds in between is the id of its template row. */
  lemma {:induction false} HoldsItsTemplate(states: seq<Rows>, events: seq<Event>, t: nat, i: nat, s: nat)
    requires IsRun(states, events) && t < i <= |events| && events[t] == SaveTemplate(s) && Between(events, t, i, s)
    ensures s in states[i].holding && states[i].holding[s] == states[t].templates + 1
    decreases i
  {
    assert Follows(states, events, i - 1);
    if i - 1 > t {
      HoldsItsTemplate(states, events, t, i - 1, s);
    }
  }

  /** The exact condition under which a job's id is also the id of its template row, for any number of
      submissions that interleave: between the two transactions of its submission as many jobs are
      inserted as there were, at the first one, arrays in the table and submissions on their way. */
  lemma IdsAgreeIff(states: seq<Rows>, events: seq<Event>, t: nat, i: nat, s: nat)
    requires IsRun(states, events) && t < i < |events|
    requires events[t] == SaveTemplate(s) && events[i] == SaveJob(s) && Between(events, t, i, s)
    ensures var id := |states[i].jobs| + 1;
            && |states[i + 1].jobs| == id
            && (states[i + 1].jobs[id - 1] == id <==>
                |states[i].jobs| - |states[t].jobs| == |states[t].arrays| + |states[t].holding|)
  {
    hide Apply, Enabled;
    RunIsCounted(states, events, t);
    HoldsItsTemplate(states, events, t, i, s);
    assert Follows(states, events, i);
    JobApplied(states[i], s);
  }

  lemma JobApplied(r: Rows, s: nat)
    requires Enabled(r, SaveJob(s))
    ensures Apply(r, SaveJob(s)).jobs == r.jobs + [r.holding[s]]
  {
  }

  /** Without interleaving that is: no array before the job. */
  lemma IdsAgreeAlone(states: seq<Rows>, events: seq<Event>, t: nat, s: nat)
    requires IsRun(states, events) && t + 1 < |events|
    requires events[t] == SaveTemplate(s) && events[t + 1] == SaveJob(s) && states[t].holding == map[]
    ensures var id := |states[t + 1].jobs| + 1;
            && |states[t + 2].jobs| == id
            && (states[t + 2].jobs[id - 1] == id <==> states[t].arrays == [])
  {
    IdsAgreeIff(states, events, t, t + 1, s);
    assert Follows(states, events, t);
  }

  lemma RowsStay(states: seq<Rows>, events: seq<Event>, i: nat, m: nat)
    requires IsRun(states, events) && i <= m <= |events|
    ensures states[i].jobs <= states[m].jobs && states[i].arrays <= states[m].arrays
    ensures states[i].templates <= states[m].templates
    decreases m
  {
    if i < m {
      RowsStay(states, events, i, m - 1);
      assert Follows(states, events, m - 1);
    }
  }

  /** An array refers for good to the template row that its own submission has saved, and no job, no other
      array and no submission on its way ever refers to that row, however submissions interleave. */
  lemma ArrayRowIsOwn(states: seq<Rows>, events: seq<Event>, t: nat, i: nat, s: nat, m: nat)
    requires IsRun(states, events) && t < i < m <= |events|
    requires events[t] == SaveTemplate(s) && events[i] == SaveArray(s) && Between(events, t, i, s)
    ensures var r := states[m];
            var a := |states[i].arrays|;
            var n := states[t].templates + 1;
            && a < |r.arrays| && r.arrays[a] == n && 1 <= n <= r.templates
            && n !in r.jobs && n !in r.holding.Values
            && forall b :: 0 <= b < |r.arrays| && b != a ==> r.arrays[b] != n
  {
    hide Apply, Enabled;
    HoldsItsTemplate(states, events, t, i, s);
    assert Follows(states, events, i);
    ArrayApplied(states[i], s);
    RowsStay(states, events, i + 1, m);
    RunIsOwned(states, events, m);
    assert states[m].arrays[|states[i].arrays|] in states[m].arrays;
  }

  lemma ArrayApplied(r: Rows, s: nat)
    requires Enabled(r, SaveArray(s))
    ensures Apply(r, SaveArray(s)).arrays == r.arrays + [r.holding[s]]
  {
  }

  /** A submission is never held up by others: with nothing on its way it can save a template; then it can save
      its job or its array, which gets the row it has saved. */
  lemma SubmissionsGoOn(r: Rows, s: nat)
    ensures Enabled(r, SaveTemplate(s)) <==> s !in r.holding
    ensures Enabled(r, SaveJob(s)) && Enabled(r, SaveArray(s)) <==> s in r.holding
    ensures s !in r.holding ==>
              var r' := Apply(r, SaveTemplate(s));
              && r'.templates == r.templates + 1 && r'.jobs == r.jobs && r'.arrays == r.arrays
              && Enabled(r', SaveJob(s)) && Apply(r', SaveJob(s)).jobs == r.jobs + [r.templates + 1]
              && Apply(r', SaveJob(s)).arrays == r.arrays && Apply(r', SaveJob(s)).holding == r.holding
              && Enabled(r', SaveArray(s)) && Apply(r', SaveArray(s)).arrays == r.arrays + [r.templates + 1]
              && Apply(r', SaveArray(s)).jobs == r.jobs && Apply(r', SaveArray(s)).holding == r.holding
  {
    if s !in r.holding {
      assert r.holding[s := r.templates + 1] - {s} == r.holding;
    }
  }

  /** Without any array two submissions that interleave are enough: each job has the id of the other's template
      row. */
  lemma IdsCanDisagree()
    ensures exists states: seq<Rows>, events: seq<Event> ::
              && IsRun(states, events) && |events| == 4
              && events == [SaveTemplate(0), SaveTemplate(1), SaveJob(1), SaveJob(0)]
              && states[4] == Rows(2, [2, 1], [], map[])
  {
    var h := map[0 := 1, 1 := 2];
    assert h - {1} == map[0 := 1] && map[0 := 1] - {0} == map[];
    var states := [Rows(0, [], [], map[]), Rows(1, [], [], map[0 := 1]), Rows(2, [], [], h),
                   Rows(2, [2], [], map[0 := 1]), Rows(2, [2, 1], [], map[])];
    var events := [SaveTemplate(0), SaveTemplate(1), SaveJob(1), SaveJob(0)];
    assert map[0 := 1][1 := 2] == h && map[][0 := 1] == map[0 := 1];
    assert Follows(states, events, 0) && Follows(states, events, 1);
    assert Follows(states, events, 2) && Follows(states, events, 3);
    assert IsRun(states, events);
  }
}
