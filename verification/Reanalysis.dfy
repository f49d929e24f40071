/** When an upgrade analysis runs again, and the baseline it hands to the next run, although it may read an
    old version of its object. */
module Reanalysis {
  import opened Collections
  import opened Inventory
  import opened Scoring

  datatype StoredDecision = Undecided | Error | Decided(level: Level)

  /** The part of the stored status that later runs read, and the decision shown. */
  datatype Status = Status(
    decision: StoredDecision, lastAnalysisTime: Option<int>, lastRefresh: string, observedGeneration: nat,
    lastTotalPods: nat, lastTotalRestarts: nat)

  const FRESH := Status(Undecided, None, "", 0, 0, 0)

  datatype Version = Version(major: int, minor: int)

  /** Strictly higher by major, then minor. */
  predicate VersionIsHigher(target: Version, current: Version) {
    if target.major != current.major then target.major > current.major else target.minor > current.minor
  }

  /** Everything one reconcile meets: how many versions its read is behind, the clock of the skip check and
      the next reading of the clock, the object's interval, generation and refresh annotation, the snapshot
      (or a collection failure), the level the analysis finds, and whether the API server accepts a write. */
  datatype Visit = Visit(
    behind: nat, now: int, later: int, interval: int, generation: nat, refresh: string,
    snapshot: Option<Signals>, target: Version, current: Version, level: Level, accepted: bool)

  datatype Outcome =
    | Skipped(requeueAfter: int)
    | CollectFailed
    | Rejected(written: bool)
    | WriteFailed
    | Committed(analysed: Signals)

  /** The version that a visit reads: not the newest if it is behind. */
  function ReadIndex(h: seq<Status>, v: Visit): (i: nat)
    requires h != []
    ensures i < |h|
  {
    if v.behind < |h| then |h| - 1 - v.behind else 0
  }

  /** The restart delta that a committed analysis scores. */
  function DeltaOf(o: Outcome): int {
    if o.Committed? then BuildMetrics(o.analysed).restartDelta else 0
  }

  /** The target is above the version the cluster runs, by major and then by minor. */
  predicate IsUpgrade(v: Visit) {
    v.target.major > v.current.major || (v.target.major == v.current.major && v.target.minor > v.current.minor)
  }

  /** A write lands only on the version it was made from. */
  predicate Lands(h: seq<Status>, v: Visit)
    requires h != []
  {
    v.accepted && ReadIndex(h, v) == |h| - 1
  }

  /** A periodic resync inside the interval, with the spec and the refresh annotation of the last run. */
  predicate IsSkipped(s: Status, v: Visit) {
    && v.interval > 0 && s.lastAnalysisTime.Some?
    && v.generation == s.observedGeneration && v.refresh == s.lastRefresh
    && v.now < s.lastAnalysisTime.value + v.interval
  }

  /** What a run that analyses the snapshot stores. */
  function CommittedStatus(v: Visit): Status
    requires v.snapshot.Some?
  {
    var signals := v.snapshot.value;
    Status(Decided(v.level), Some(v.later), v.refresh, v.generation, signals.totalPods, signals.totalRestarts)
  }

  /** The stored versions after a visit, and its outcome. */
  function Step(h: seq<Status>, v: Visit): (seq<Status>, Outcome)
    requires h != []
  {
    var s := h[ReadIndex(h, v)];
    if IsSkipped(s, v) then (h, Skipped(s.lastAnalysisTime.value + v.interval - v.later))
    else if v.snapshot.None? then (h, CollectFailed)
    else if !VersionIsHigher(v.target, v.current) then
      (if Lands(h, v) then h + [s.(decision := Error, lastAnalysisTime := Some(v.later))] else h, Rejected(Lands(h, v)))
    else if !Lands(h, v) then (h, WriteFailed)
    else (h + [CommittedStatus(v)],
          Committed(v.snapshot.value.(previousTotalPods := s.lastTotalPods, previousRestarts := s.lastTotalRestarts)))
  }

  /** The stored versions of the object, and the controller that reconciles it. */
  class Reconciler {
    var versions: seq<Status>

    constructor ()
      ensures versions == [FRESH]
    {
      versions := [FRESH];
    }

    method Update(v: Visit, ua: Status) returns (ok: bool)
      requires versions != []
      modifies this
      ensures ok == Lands(old(versions), v)
      ensures versions == if ok then old(versions) + [ua] else old(versions)
    {
      ok := v.accepted && ReadIndex(versions, v) == |versions| - 1;
      if ok {
        versions := versions + [ua];
      }
    }

    /** One reconcile: it works on its own copy of the status it read. It is skipped exactly when that copy
        has a run of the same generation and refresh annotation whose interval is not over; the delay it
        then asks for is positive exactly when the clock, read again, is still inside the interval. */
    method Reconcile(v: Visit) returns (outcome: Outcome)
      requires versions != []
      modifies this
      ensures versions != [] && (versions, outcome) == Step(old(versions), v)
      ensures var read := old(versions)[ReadIndex(old(versions), v)];
              && (outcome.Skipped? <==>
                    && v.interval > 0 && read.lastAnalysisTime.Some?
                    && read.observedGeneration == v.generation && read.lastRefresh == v.refresh
                    && v.now - read.lastAnalysisTime.value < v.interval)
              && (outcome.Skipped? ==>
                    && versions == old(versions)
                    && (outcome.requeueAfter > 0 <==> v.later - read.lastAnalysisTime.value < v.interval))
      ensures !outcome.Skipped? ==>
                var newest := v.accepted && (v.behind == 0 || |old(versions)| == 1);
                var read := old(versions)[if v.behind < |old(versions)| then |old(versions)| - 1 - v.behind else 0];
                && (outcome.CollectFailed? <==> v.snapshot.None?)
                && (outcome.Rejected? <==> v.snapshot.Some? && !IsUpgrade(v))
                && (outcome.Committed? <==> v.snapshot.Some? && IsUpgrade(v) && newest)
                && (outcome.WriteFailed? <==> v.snapshot.Some? && IsUpgrade(v) && !newest)
                && (outcome.Rejected? && newest ==>
                      versions == old(versions) + [read.(decision := Error, lastAnalysisTime := Some(v.later))])
                && (outcome.Committed? ==>
                      && outcome.analysed == v.snapshot.value.(previousTotalPods := read.lastTotalPods,
                                                               previousRestarts := read.lastTotalRestarts)
                      && versions == old(versions) + [Status(Decided(v.level), Some(v.later), v.refresh, v.generation,
                                                             v.snapshot.value.totalPods,
                                                             v.snapshot.value.totalRestarts)])
                && (!outcome.Committed? && !(outcome.Rejected? && newest) ==> versions == old(versions))
    {
      var ua := versions[ReadIndex(versions, v)];
      if v.interval > 0 && ua.lastAnalysisTime.Some? {
        var specChanged := v.generation != ua.observedGeneration;
        var refreshRequested := v.refresh != ua.lastRefresh;
        if !specChanged && !refreshRequested {
          var next := ua.lastAnalysisTime.value + v.interval;
          if v.now < next {
            return Skipped(next - v.later);
          }
        }
      }
      if v.snapshot.None? {
        return CollectFailed;
      }
      var snapshot := v.snapshot.value.(previousTotalPods := ua.lastTotalPods);
      snapshot := snapshot.(previousRestarts := ua.lastTotalRestarts);
      if !VersionIsHigher(v.target, v.current) {
        ua := ua.(decision := Error);
        ua := ua.(lastAnalysisTime := Some(v.later));
        var written := Update(v, ua);
        return Rejected(written);
      }
      ua := ua.(decision := Decided(v.level));
      ua := ua.(lastAnalysisTime := Some(v.later), lastRefresh := v.refresh, observedGeneration := v.generation);
      ua := ua.(lastTotalPods := snapshot.totalPods, lastTotalRestarts := snapshot.totalRestarts);
      var stored := Update(v, ua);
      if !stored {
        return WriteFailed;
      }
      return Committed(snapshot);
    }
  }

  // ----- Runs -----

  function Newest(h: seq<Status>): Status
    requires h != []
  {
    h[|h| - 1]
  }

  function Run(h: seq<Status>, visits: seq<Visit>): (r: seq<Status>)
    requires h != []
    ensures r != []
  {
    if visits == [] then h else Step(Run(h, visits[..|visits| - 1]), visits[|visits| - 1]).0
  }

  /** The outcome of visit i of a run. */
  function OutcomeOf(h: seq<Status>, visits: seq<Visit>, i: nat): Outcome
    requires h != [] && i < |visits|
  {
    Step(Run(h, visits[..i]), visits[i]).1
  }

  /** The sum of the restart deltas of the committed analyses of a run. */
  function TotalDelta(h: seq<Status>, visits: seq<Visit>): int
    requires h != []
  {
    if visits == [] then 0
    else
      var before := visits[..|visits| - 1];
      var o := Step(Run(h, before), visits[|visits| - 1]).1;
      TotalDelta(h, before) + DeltaOf(o)
  }

  /** Over any run, however old the reads and whatever was skipped, rejected, failed to collect or failed to
      be stored in between, the deltas of the committed analyses telescope to the change of the stored total. */
  lemma {:induction false} DeltasTelescope(h: seq<Status>, visits: seq<Visit>)
    requires h != []
    ensures TotalDelta(h, visits) == Newest(Run(h, visits)).lastTotalRestarts - Newest(h).lastTotalRestarts
  {
    if visits != [] {
      DeltasTelescope(h, visits[..|visits| - 1]);
      StepDelta(Run(h, visits[..|visits| - 1]), visits[|visits| - 1]);
      hide Step;
    }
  }

  lemma {:induction false} StepDelta(h: seq<Status>, v: Visit)
    requires h != []
    ensures var (h', o) := Step(h, v);
            h' != [] && Newest(h').lastTotalRestarts
                        == Newest(h).lastTotalRestarts + DeltaOf(o)
  {
    hide IsSkipped, VersionIsHigher;
  }

  /** No committed analysis counts a restart twice or drops one: from a fresh object the deltas up to a
      committed visit add up to the restarts that visit saw. */
  lemma {:induction false} DeltasReachCurrentTotal(visits: seq<Visit>, i: nat)
    requires i < |visits| && OutcomeOf([FRESH], visits, i).Committed?
    ensures TotalDelta([FRESH], visits[..i + 1]) == visits[i].snapshot.value.totalRestarts
  {
    TakeNext(visits, i);
    DeltasTelescope([FRESH], visits[..i + 1]);
    assert Run([FRESH], visits[..i + 1]) == Step(Run([FRESH], visits[..i]), visits[i]).0;
  }

  /** The last committed visit of a run, if any. */
  ghost predicate IsLastCommit(h: seq<Status>, visits: seq<Visit>, i: nat)
    requires h != []
  {
    && i < |visits| && OutcomeOf(h, visits, i).Committed?
    && forall j :: i < j < |visits| ==> !OutcomeOf(h, visits, j).Committed?
  }

  lemma {:induction false} SameOutcomes(h: seq<Status>, visits: seq<Visit>)
    requires h != [] && visits != []
    ensures var before := visits[..|visits| - 1];
            && (forall j: nat :: j < |before| ==> OutcomeOf(h, before, j) == OutcomeOf(h, visits, j))
            && (forall i: nat :: IsLastCommit(h, visits, i) && i < |before| ==> IsLastCommit(h, before, i))
  {
    var before := visits[..|visits| - 1];
    assert forall j :: 0 <= j < |before| ==> before[..j] == visits[..j];
  }

  /** Between commits the baseline, the observed generation and the honoured refresh stand still, rejected
      runs included. */
  lemma {:induction false} OnlyCommitsMoveTheBaseline(h: seq<Status>, visits: seq<Visit>, i: nat)
    requires h != [] && IsLastCommit(h, visits, i)
    ensures var last := CommittedStatus(visits[i]);
            Newest(Run(h, visits)).(decision := last.decision, lastAnalysisTime := last.lastAnalysisTime) == last
  {
    if |visits| == i + 1 {
      assert visits[..|visits| - 1] == visits[..i];
    } else {
      SameOutcomes(h, visits);
      OnlyCommitsMoveTheBaseline(h, visits[..|visits| - 1], i);
      assert !OutcomeOf(h, visits, |visits| - 1).Committed?;
    }
  }

  /** A clock that does not run backwards, one visit after another. */
  ghost predicate Clocked(visits: seq<Visit>) {
    && (forall i :: 0 <= i < |visits| ==> visits[i].now <= visits[i].later)
    && (forall i, j :: 0 <= i < j < |visits| ==> visits[i].later <= visits[j].now)
  }

  /** After a commit the recorded time never falls behind it, although a rejection moves it too. */
  lemma {:induction false} TimeSinceCommit(h: seq<Status>, visits: seq<Visit>, i: nat)
    requires h != [] && IsLastCommit(h, visits, i) && Clocked(visits)
    ensures var time := Newest(Run(h, visits)).lastAnalysisTime;
            time.Some? && time.value >= visits[i].later
  {
    if |visits| == i + 1 {
      assert visits[..|visits| - 1] == visits[..i];
    } else {
      SameOutcomes(h, visits);
      TimeSinceCommit(h, visits[..|visits| - 1], i);
      assert !OutcomeOf(h, visits, |visits| - 1).Committed?;
    }
  }

  /** Analyses keep their distance: after a commit a visit with the same spec and refresh annotation that
      reads the newest version and is not skipped comes no sooner than its interval, whatever was rejected or
      failed between. */
  lemma {:induction false} AnalysesAreSpaced(h: seq<Status>, visits: seq<Visit>, i: nat, v: Visit)
    requires h != [] && IsLastCommit(h, visits, i) && Clocked(visits)
    requires v.interval > 0 && v.generation == visits[i].generation && v.refresh == visits[i].refresh
    requires ReadIndex(Run(h, visits), v) == |Run(h, visits)| - 1 && !Step(Run(h, visits), v).1.Skipped?
    ensures v.now >= visits[i].later + v.interval
  {
    hide Run, OutcomeOf;
    OnlyCommitsMoveTheBaseline(h, visits, i);
    TimeSinceCommit(h, visits, i);
  }

  /** However old the reads: inside the interval nothing more is stored. A visit that runs there all the same
      has read a version from before the commit or the last rejection. */
  lemma {:induction false} WritesAreSpaced(h: seq<Status>, visits: seq<Visit>, i: nat, v: Visit)
    requires h != [] && IsLastCommit(h, visits, i) && Clocked(visits)
    requires v.interval > 0 && v.generation == visits[i].generation && v.refresh == visits[i].refresh
    requires v.now < visits[i].later + v.interval
    ensures Step(Run(h, visits), v).0 == Run(h, visits)
    ensures !Step(Run(h, visits), v).1.Skipped? ==> ReadIndex(Run(h, visits), v) < |Run(h, visits)| - 1
  {
    hide Run, OutcomeOf;
    if ReadIndex(Run(h, visits), v) == |Run(h, visits)| - 1 && !Step(Run(h, visits), v).1.Skipped? {
      AnalysesAreSpaced(h, visits, i, v);
    }
  }

  /** That does happen: right after the first commit a visit one version behind analyses again, and cannot
      store what it finds. */
  lemma {:induction false} StaleReadRunsAgain(first: Visit)
    requires first.interval > 0 && first.snapshot.Some? && VersionIsHigher(first.target, first.current)
    requires first.accepted && first.now <= first.later
    ensures var again := first.(behind := 1, now := first.later);
            && IsLastCommit([FRESH], [first], 0)
            && OutcomeOf([FRESH], [first, again], 1) == WriteFailed
  {
    assert [first][..0] == [] && [first, first.(behind := 1, now := first.later)][..1] == [first];
    assert Run([FRESH], [first]) == [FRESH, CommittedStatus(first)];
  }

  ghost predicate NoneObserved(h: seq<Status>, g: nat) {
    forall k :: 0 <= k < |h| ==> h[k].observedGeneration != g
  }

  /** A rejected spec is not taken as observed: as long as that generation stays, no later visit of the run
      is skipped, whatever version it reads, unless an analysis of the same generation was committed. */
  lemma {:induction false} RejectedGenerationRunsAgain(h: seq<Status>, visits: seq<Visit>, g: nat)
    requires h != [] && NoneObserved(h, g)
    requires forall i :: 0 <= i < |visits| ==> visits[i].generation == g
    requires forall i :: 0 <= i < |visits| ==> !OutcomeOf(h, visits, i).Committed?
    ensures NoneObserved(Run(h, visits), g)
    ensures forall v: Visit :: v.generation == g ==> !Step(Run(h, visits), v).1.Skipped?
  {
    if visits != [] {
      SameOutcomes(h, visits);
      RejectedGenerationRunsAgain(h, visits[..|visits| - 1], g);
      assert !OutcomeOf(h, visits, |visits| - 1).Committed?;
    }
  }

  /** No downgrade is ever committed: every stored decision that is not an error was made by a visit of the run
      whose target is above the version the cluster then ran, and carries that visit's findings. */
  lemma {:induction false} DecisionsAreOnUpgrades(visits: seq<Visit>)
    ensures forall k :: 0 <= k < |Run([FRESH], visits)| && Run([FRESH], visits)[k].decision.Decided? ==>
              exists i :: 0 <= i < |visits| && IsUpgrade(visits[i]) && visits[i].snapshot.Some?
                          && Run([FRESH], visits)[k].decision.level == visits[i].level
    ensures forall i :: 0 <= i < |visits| && OutcomeOf([FRESH], visits, i).Committed? ==> IsUpgrade(visits[i])
  {
    if visits != [] {
      var before, last := visits[..|visits| - 1], visits[|visits| - 1];
      DecisionsAreOnUpgrades(before);
      SameOutcomes([FRESH], visits);
      StepDecides(Run([FRESH], before), last);
      hide Step, IsUpgrade;
      var r, r' := Run([FRESH], before), Run([FRESH], visits);
      forall k | 0 <= k < |r'| && r'[k].decision.Decided?
        ensures exists i :: 0 <= i < |visits| && IsUpgrade(visits[i]) && visits[i].snapshot.Some?
                            && r'[k].decision.level == visits[i].level {
        if k < |r| {
          var i :| 0 <= i < |before| && IsUpgrade(before[i]) && before[i].snapshot.Some?
                   && r[k].decision.level == before[i].level;
          assert visits[i] == before[i];
        } else {
          assert visits[|visits| - 1] == last;
        }
      }
      assert visits[..|visits| - 1] == before;
      forall i | 0 <= i < |visits| && OutcomeOf([FRESH], visits, i).Committed? ensures IsUpgrade(visits[i]) {
        if i < |before| {
          assert before[i] == visits[i];
        }
      }
    }
  }

  lemma {:induction false} StepDecides(h: seq<Status>, v: Visit)
    requires h != []
    ensures var (h', o) := Step(h, v);
            && h <= h' && |h'| <= |h| + 1
            && (|h'| > |h| && h'[|h|].decision.Decided? ==>
                  IsUpgrade(v) && v.snapshot.Some? && h'[|h|].decision.level == v.level)
            && (o.Committed? ==> IsUpgrade(v))
  {
  }
}
