/**
 * services/geofence/src/violations/violation-decider.ts: the hysteresis automaton for one
 * vehicle, and what folding it over any history of pings means.
 */
module ViolationDecider {
  import opened Wrappers

  /** The placeholder the decider writes, or the id of the row the detector then inserts. */
  datatype ViolationRef = Pending | Row(id: nat)

  datatype GeoState = GeoState(
    pendingOutsideSince: Option<int>,
    maxDistanceM: real,
    openViolationId: Option<ViolationRef>)

  datatype Action = Nothing | Open(maxDistanceM: real) | Close

  /** One processed position: distance outside the zone, its time, and whether it is authorized. */
  datatype Ping = Ping(distanceM: real, now: int, authorized: bool)

  datatype Hysteresis = Hysteresis(marginM: real, dwellMs: int)

  const InitialGeoState := GeoState(None, 0.0, None)

  function Max(a: real, b: real): real {
    if a < b then b else a
  }

  function Decide(h: Hysteresis, state: GeoState, p: Ping): (Action, GeoState) {
    if !(p.distanceM > h.marginM) then
      (if state.openViolationId.Some? then Close else Nothing, InitialGeoState)
    else if p.authorized then
      (Nothing, state.(pendingOutsideSince := None))
    else
      var maxDistanceM := Max(state.maxDistanceM, p.distanceM);
      if state.openViolationId.Some? then
        (Nothing, state.(maxDistanceM := maxDistanceM))
      else
        var since := if state.pendingOutsideSince.Some? then state.pendingOutsideSince.value else p.now;
        if p.now - since >= h.dwellMs then
          (Open(maxDistanceM), GeoState(Some(since), maxDistanceM, Some(Pending)))
        else
          (Nothing, GeoState(Some(since), maxDistanceM, None))
  }

  /** The state after a history of pings. */
  function Fold(h: Hysteresis, ps: seq<Ping>): GeoState {
    if ps == [] then InitialGeoState else Decide(h, Fold(h, ps[..|ps| - 1]), ps[|ps| - 1]).1
  }

  /** The action the k-th ping of a history triggers. */
  function ActionAt(h: Hysteresis, ps: seq<Ping>, k: nat): Action
    requires k < |ps|
  {
    Decide(h, Fold(h, ps[..k]), ps[k]).0
  }

  // -------------------------------------------- the declarative reading of a history

  predicate Near(h: Hysteresis, p: Ping) {
    p.distanceM <= h.marginM
  }

  /** Beyond the margin with nothing to authorize it. */
  predicate Stray(h: Hysteresis, p: Ping) {
    p.distanceM > h.marginM && !p.authorized
  }

  /** Where the pings since the last within-margin one begin. */
  function ExcursionStart(h: Hysteresis, ps: seq<Ping>): (e: nat)
    ensures e <= |ps|
    ensures e == 0 || Near(h, ps[e - 1])
    ensures forall i :: e <= i < |ps| ==> !Near(h, ps[i])
  {
    if ps == [] then 0
    else if Near(h, ps[|ps| - 1]) then |ps|
    else ExcursionStart(h, ps[..|ps| - 1])
  }

  /** Where the contiguous stray pings that end the history begin. */
  function RunStart(h: Hysteresis, ps: seq<Ping>): (s: nat)
    ensures s <= |ps|
    ensures s == 0 || !Stray(h, ps[s - 1])
    ensures forall i :: s <= i < |ps| ==> Stray(h, ps[i])
  {
    if ps == [] || !Stray(h, ps[|ps| - 1]) then |ps| else RunStart(h, ps[..|ps| - 1])
  }

  /** At ping k the history stands at the end of a stray run that spans the dwell. */
  predicate DwellSpent(h: Hysteresis, ps: seq<Ping>, k: nat)
    requires k < |ps|
  {
    var s := RunStart(h, ps[..k + 1]);
    s <= k && ps[k].now - ps[s].now >= h.dwellMs
  }

  /** When the stray run that ends the history began. */
  function RunSince(h: Hysteresis, ps: seq<Ping>): Option<int> {
    var s := RunStart(h, ps);
    if s < |ps| then Some(ps[s].now) else None
  }

  /** Some ping of the current excursion spent the dwell. */
  ghost predicate Flagged(h: Hysteresis, ps: seq<Ping>) {
    exists k :: ExcursionStart(h, ps) <= k < |ps| && DwellSpent(h, ps, k)
  }

  /** k is the first ping since the last within-margin ping at which the dwell is spent. */
  ghost predicate FirstDwell(h: Hysteresis, ps: seq<Ping>, k: nat)
    requires k < |ps|
  {
    && DwellSpent(h, ps, k)
    && forall i :: ExcursionStart(h, ps[..k + 1]) <= i < k ==> !DwellSpent(h, ps, i)
  }

  /** m is the largest stray distance of the current excursion, and 0 if there is none. */
  ghost predicate IsWorst(h: Hysteresis, ps: seq<Ping>, m: real) {
    && m >= 0.0
    && (forall i :: ExcursionStart(h, ps) <= i < |ps| && Stray(h, ps[i]) ==> ps[i].distanceM <= m)
    && (m == 0.0 || exists i :: ExcursionStart(h, ps) <= i < |ps| && Stray(h, ps[i]) && ps[i].distanceM == m)
  }

  lemma DwellOfPrefix(h: Hysteresis, ps: seq<Ping>, m: nat)
    requires m <= |ps|
    ensures forall k :: 0 <= k < m ==> DwellSpent(h, ps[..m], k) == DwellSpent(h, ps, k)
  {
    forall k | 0 <= k < m
      ensures DwellSpent(h, ps[..m], k) == DwellSpent(h, ps, k)
    {
      assert ps[..m][..k + 1] == ps[..k + 1];
    }
  }

  lemma FlaggedStep(h: Hysteresis, ps: seq<Ping>, p: Ping)
    ensures Flagged(h, ps + [p]) <==> !Near(h, p) && (Flagged(h, ps) || DwellSpent(h, ps + [p], |ps|))
  {
    var qs := ps + [p];
    assert qs[..|ps|] == ps;
    DwellOfPrefix(h, qs, |ps|);
    if !Near(h, p) {
      assert ExcursionStart(h, qs) == ExcursionStart(h, ps);
      if k :| ExcursionStart(h, ps) <= k < |ps| && DwellSpent(h, ps, k) {
        assert DwellSpent(h, qs, k);
      }
    }
  }

  lemma WorstStep(h: Hysteresis, ps: seq<Ping>, p: Ping, m: real)
    requires IsWorst(h, ps, m)
    ensures IsWorst(h, ps + [p], if Near(h, p) then 0.0 else if p.authorized then m else Max(m, p.distanceM))
  {
    var qs := ps + [p];
    assert qs[..|ps|] == ps && qs[|ps|] == p;
    if !Near(h, p) {
      assert ExcursionStart(h, qs) == ExcursionStart(h, ps);
      assert forall i :: 0 <= i < |ps| ==> qs[i] == ps[i];
    }
  }

  lemma RunStep(h: Hysteresis, ps: seq<Ping>, p: Ping)
    ensures var since := if RunSince(h, ps).Some? then RunSince(h, ps).value else p.now;
      && RunSince(h, ps + [p]) == (if Stray(h, p) then Some(since) else None)
      && (DwellSpent(h, ps + [p], |ps|) <==> Stray(h, p) && p.now - since >= h.dwellMs)
  {
    var qs := ps + [p];
    assert qs[..|ps|] == ps && qs[..|ps| + 1] == qs && qs[|ps|] == p;
  }

  /** The three fields of the state, read off the history. */
  lemma {:induction false} FoldMeaning(h: Hysteresis, ps: seq<Ping>)
    ensures var g := Fold(h, ps);
      && (g.openViolationId.Some? <==> Flagged(h, ps))
      && IsWorst(h, ps, g.maxDistanceM)
      && (!Flagged(h, ps) ==> g.pendingOutsideSince == RunSince(h, ps))
  {
    if ps != [] {
      var before, p := ps[..|ps| - 1], ps[|ps| - 1];
      assert ps == before + [p];
      FoldMeaning(h, before);
      FlaggedStep(h, before, p);
      RunStep(h, before, p);
      WorstStep(h, before, p, Fold(h, before).maxDistanceM);
    }
  }

  // ------------------------------------------------------------------ main results

  lemma SplitAt(ps: seq<Ping>, k: nat)
    requires k < |ps|
    ensures ps[..k + 1] == ps[..k] + [ps[k]] && ps[..k + 1][..k] == ps[..k] && ps[..k + 1][k] == ps[k]
  {
  }

  /** The decider opens when the dwell is spent and the excursion is not flagged yet. */
  lemma OpensIffUnflagged(h: Hysteresis, ps: seq<Ping>, k: nat)
    requires k < |ps|
    ensures ActionAt(h, ps, k).Open? <==> DwellSpent(h, ps, k) && !Flagged(h, ps[..k])
    ensures ActionAt(h, ps, k).Open? ==> IsWorst(h, ps[..k + 1], ActionAt(h, ps, k).maxDistanceM)
  {
    var before, p := ps[..k], ps[k];
    SplitAt(ps, k);
    FoldMeaning(h, before);
    RunStep(h, before, p);
    WorstStep(h, before, p, Fold(h, before).maxDistanceM);
    DwellOfPrefix(h, ps, k + 1);
    assert DwellSpent(h, before + [p], k) == DwellSpent(h, ps, k);
  }

  lemma FirstDwellIffUnflagged(h: Hysteresis, ps: seq<Ping>, k: nat)
    requires k < |ps| && DwellSpent(h, ps, k)
    ensures FirstDwell(h, ps, k) <==> !Flagged(h, ps[..k])
  {
    SplitAt(ps, k);
    DwellOfPrefix(h, ps, k);
    assert Stray(h, ps[..k + 1][k]);
    assert ExcursionStart(h, ps[..k + 1]) == ExcursionStart(h, ps[..k]);
  }

  /** A violation opens exactly at the first ping of the excursion whose stray run spans the dwell. */
  lemma OpensExactlyAtFirstDwell(h: Hysteresis, ps: seq<Ping>, k: nat)
    requires k < |ps|
    ensures ActionAt(h, ps, k).Open? <==> FirstDwell(h, ps, k)
    ensures ActionAt(h, ps, k).Open? ==> IsWorst(h, ps[..k + 1], ActionAt(h, ps, k).maxDistanceM)
  {
    OpensIffUnflagged(h, ps, k);
    if DwellSpent(h, ps, k) {
      FirstDwellIffUnflagged(h, ps, k);
    }
  }

  lemma ClosesIffFlagged(h: Hysteresis, ps: seq<Ping>, k: nat)
    requires k < |ps|
    ensures ActionAt(h, ps, k).Close? <==> Near(h, ps[k]) && Flagged(h, ps[..k])
  {
    FoldMeaning(h, ps[..k]);
  }

  /** It closes exactly at the first within-margin ping after such an opening. */
  lemma ClosesExactlyOnReturn(h: Hysteresis, ps: seq<Ping>, k: nat)
    requires k < |ps|
    ensures ActionAt(h, ps, k).Close? <==>
      Near(h, ps[k]) && exists i :: ExcursionStart(h, ps[..k]) <= i < k && ActionAt(h, ps, i).Open?
  {
    ClosesIffFlagged(h, ps, k);
    DwellOfPrefix(h, ps, k);
    var e := ExcursionStart(h, ps[..k]);
    if Flagged(h, ps[..k]) {
      var i :| e <= i < k && DwellSpent(h, ps[..k], i);
      NearnessOfPrefix(h, ps, k, e);
      FirstOf(h, ps, e, i);
    }
    if i :| e <= i < k && ActionAt(h, ps, i).Open? {
      OpensIffUnflagged(h, ps, i);
      assert DwellSpent(h, ps[..k], i);
    }
  }

  lemma NearnessOfPrefix(h: Hysteresis, ps: seq<Ping>, k: nat, e: nat)
    requires k < |ps| && e == ExcursionStart(h, ps[..k])
    ensures e <= k && (e == 0 || Near(h, ps[e - 1])) && forall j :: e <= j < k ==> !Near(h, ps[j])
  {
    assert forall j :: 0 <= j < k ==> ps[..k][j] == ps[j];
  }

  /** Below any dwell spent since e, where no later ping is near, lies an opening. */
  lemma {:induction false} FirstOf(h: Hysteresis, ps: seq<Ping>, e: nat, i: nat)
    requires e <= i < |ps| && DwellSpent(h, ps, i)
    requires e == 0 || Near(h, ps[e - 1])
    requires forall j :: e <= j <= i ==> !Near(h, ps[j])
    ensures exists j :: e <= j <= i && ActionAt(h, ps, j).Open?
    decreases i
  {
    OpensExactlyAtFirstDwell(h, ps, i);
    if !FirstDwell(h, ps, i) {
      ExcursionStartIs(h, ps[..i + 1], e);
      var j :| e <= j < i && DwellSpent(h, ps, j);
      FirstOf(h, ps, e, j);
    }
  }

  lemma ExcursionStartIs(h: Hysteresis, ps: seq<Ping>, e: nat)
    requires e <= |ps| && (e == 0 || Near(h, ps[e - 1]))
    requires forall j :: e <= j < |ps| ==> !Near(h, ps[j])
    ensures ExcursionStart(h, ps) == e
  {
  }

  ghost predicate IsOpenAfter(h: Hysteresis, ps: seq<Ping>, k: nat)
    requires k <= |ps|
  {
    Fold(h, ps[..k]).openViolationId.Some?
  }

  lemma OpenFlips(h: Hysteresis, ps: seq<Ping>, k: nat)
    requires k < |ps|
    ensures ActionAt(h, ps, k).Open? ==> !IsOpenAfter(h, ps, k)
    ensures ActionAt(h, ps, k).Close? ==> IsOpenAfter(h, ps, k)
    ensures IsOpenAfter(h, ps, k + 1) ==
      (ActionAt(h, ps, k).Open? || (IsOpenAfter(h, ps, k) && !ActionAt(h, ps, k).Close?))
  {
    assert ps[..k + 1][..k] == ps[..k];
  }

  /** Whatever changed between two points of the history did so at some ping between them. */
  lemma {:induction false} FlipBetween(h: Hysteresis, ps: seq<Ping>, i: nat, j: nat)
    requires i <= j <= |ps|
    requires IsOpenAfter(h, ps, i) != IsOpenAfter(h, ps, j)
    ensures IsOpenAfter(h, ps, i) ==> exists k :: i <= k < j && ActionAt(h, ps, k).Close?
    ensures IsOpenAfter(h, ps, j) ==> exists k :: i <= k < j && ActionAt(h, ps, k).Open?
    decreases j - i
  {
    OpenFlips(h, ps, i);
    if IsOpenAfter(h, ps, i + 1) != IsOpenAfter(h, ps, j) {
      FlipBetween(h, ps, i + 1, j);
    }
  }

  /** Openings and closings strictly alternate, and an opening comes first. */
  lemma OpensAndClosesAlternate(h: Hysteresis, ps: seq<Ping>, i: nat, j: nat)
    requires i < j < |ps|
    ensures ActionAt(h, ps, i).Open? && ActionAt(h, ps, j).Open? ==>
      exists k :: i < k < j && ActionAt(h, ps, k).Close?
    ensures ActionAt(h, ps, i).Close? && ActionAt(h, ps, j).Close? ==>
      exists k :: i < k < j && ActionAt(h, ps, k).Open?
    ensures ActionAt(h, ps, j).Close? ==> exists k :: 0 <= k < j && ActionAt(h, ps, k).Open?
  {
    OpenFlips(h, ps, i);
    OpenFlips(h, ps, j);
    if IsOpenAfter(h, ps, i + 1) != IsOpenAfter(h, ps, j) {
      FlipBetween(h, ps, i + 1, j);
    }
    assert !IsOpenAfter(h, ps, 0);
    if IsOpenAfter(h, ps, j) {
      FlipBetween(h, ps, 0, j);
    }
  }

  /** Every opening is backed by a stretch of stray pings, ending there, that spans the dwell. */
  lemma OpeningHasDwell(h: Hysteresis, ps: seq<Ping>, k: nat) returns (s: nat)
    requires k < |ps| && ActionAt(h, ps, k).Open?
    ensures s <= k && ps[k].now - ps[s].now >= h.dwellMs
    ensures forall i :: s <= i <= k ==> Stray(h, ps[i])
    ensures s == 0 || !Stray(h, ps[s - 1])
  {
    OpensExactlyAtFirstDwell(h, ps, k);
    s := RunStart(h, ps[..k + 1]);
  }

  /** With a margin of at least zero the reported distance is one that was measured. */
  lemma ReportedDistanceWasMeasured(h: Hysteresis, ps: seq<Ping>, k: nat)
    requires h.marginM >= 0.0 && k < |ps| && ActionAt(h, ps, k).Open?
    ensures exists i :: ExcursionStart(h, ps[..k + 1]) <= i <= k && Stray(h, ps[i])
                        && ps[i].distanceM == ActionAt(h, ps, k).maxDistanceM
  {
    OpensExactlyAtFirstDwell(h, ps, k);
    var now := ps[..k + 1];
    assert Stray(h, now[k]) && ExcursionStart(h, now) <= k;
    var i :| ExcursionStart(h, now) <= i < |now| && Stray(h, now[i])
             && now[i].distanceM == ActionAt(h, ps, k).maxDistanceM;
    assert ps[i] == now[i];
  }
}
