/** The evaluation run, as the sequence of its durable writes. */
module Evaluation {
  import opened Arithmetic
  import opened Sequences
  import opened Orders
  import opened Normalization
  import opened Scoring
  import opened ScoreComputation
  import opened Results
  import opened Selection
  import opened Outcomes
  import opened RunFiles

  function VerdictsOf(results: seq<CaseResult>): (r: seq<bool>)
    ensures |r| == |results|
  {
    seq(|results|, i requires 0 <= i < |results| => results[i].passed)
  }

  /** `max(1, ...)` of the configured checkpoint interval. */
  function Every(n: int): (r: int)
    ensures r >= 1 && r >= n && (r == 1 || r == n)
  {
    if n >= 1 then n else 1
  }

  /** How far `position` is past the last multiple of the interval. */
  function Since(position: nat, every: nat): (r: nat)
    requires every >= 1
    ensures r < every && r <= position
  {
    if position == 0 then 0
    else
      var before := Since(position - 1, every);
      if before + 1 == every then 0 else before + 1
  }

  lemma {:induction false} SinceIsRemainder(position: nat, every: nat)
    requires every >= 1
    ensures Since(position, every) == position % every
  {
    if position == 0 {
      QuotientIs(0, 0, every, 0);
    } else {
      SinceIsRemainder(position - 1, every);
      NextRemainder(position - 1, every);
    }
  }

  /** A run in progress: everything it has written, in order, and its local variables. */
  class Run {
    const setup: Setup
    const selected: seq<CaseRow>
    /** What becomes of each case under `setup`. */
    ghost const outcomes: OutcomeFn
    /** The durable writes so far. The files are what these writes make of empty ones, and nothing else. */
    var writes: seq<Write>
    /** The local variables at each of these writes. */
    ghost var moments: seq<Moment>
    var position: nat
    var caseResults: seq<CaseResult>
    var unsupported: seq<Unsupported>
    var oracleQueries: nat

    constructor (setup: Setup, selected: seq<CaseRow>)
      requires GoodSetup(setup)
      ensures this.setup == setup && this.selected == selected
      ensures outcomes == OutcomesUnder(setup) && AllWired()
      ensures writes == [] && OnDisk() == EMPTY_DISK
      ensures position == 0 && caseResults == [] && unsupported == [] && oracleQueries == 0
      ensures Safe()
    {
      this.setup, this.selected, outcomes := setup, selected, OutcomesUnder(setup);
      writes, position, caseResults, unsupported, oracleQueries := [], 0, [], [], 0;
      moments := [];
    }

    /** What the files hold. */
    function OnDisk(): Disk
      reads this`writes
    {
      Replay(writes)
    }

    ghost function Ids(): seq<Id> { IdsOf(selected) }

    /** `outcomes` says what the setup makes of the case at index `p`. */
    ghost predicate Wired(p: nat)
      requires GoodSetup(setup) && p < |selected|
    {
      outcomes(selected[p]) == CaseOutcomeOf(setup, selected[p])
    }

    ghost predicate AllWired() {
      GoodSetup(setup) && forall p :: 0 <= p < |selected| ==> Wired(p)
    }

    /** What the candidate answers for a case, with the reference observation at hand. */
    function CandidateOn(row: CaseRow): Answer<Observation> {
      match setup.targets.referenceExecute(row)
      case Raise(e) => Raise(e)
      case Value(reference) => CandidateAnswer(setup, row, reference)
    }

    /** A progress row names a selected case by its position and holds what was answered for it. */
    ghost predicate Truthful(r: ProgressRow, candidate: bool) {
      && 1 <= r.position <= |selected|
      && var row := selected[r.position - 1];
         && r.caseId == row.caseId && r.contract == row.contract
         && (if candidate then CandidateOn(row) else setup.targets.referenceExecute(row)) == Value(r.observation)
    }

    ghost predicate TrueWrite(w: Write) {
      (w.ToReference? ==> Truthful(w.row, false)) && (w.ToCandidate? ==> Truthful(w.row, true))
    }

    /** The local variables that the files report on. */
    function Now(): Moment
      reads this`position, this`caseResults, this`unsupported
    {
      Moment(position, caseResults, unsupported)
    }

    /** The write after the first `k`: the files it was made to were consistent, the local variables were at most a step
        ahead of them, and it was true. */
    ghost predicate GoodAt(ws: seq<Write>, ms: seq<Moment>, k: nat)
      requires k < |ws| == |ms|
    {
      Consistent(Ids(), Replay(ws[..k])) && Tracks(ms[k], Replay(ws[..k])) && TrueWrite(ws[k])
    }

    /** The files are consistent, and have been after every single write so far. */
    ghost predicate Safe()
      reads this`writes, this`moments
    {
      && |writes| == |moments| && Consistent(Ids(), OnDisk())
      && forall k :: 0 <= k < |writes| ==> GoodAt(writes, moments, k)
    }

    /** What a safe run may be relied on for, at whatever write it stops. */
    lemma SafeAtEveryMoment()
      requires Safe()
      ensures forall k :: 0 <= k <= |writes| ==> Consistent(Ids(), Replay(writes[..k]))
      ensures forall r :: r in OnDisk().reference ==> Truthful(r, false)
      ensures forall r :: r in OnDisk().candidate ==> Truthful(r, true)
    {
      forall k | 0 <= k <= |writes| ensures Consistent(Ids(), Replay(writes[..k])) {
        if k < |writes| { assert GoodAt(writes, moments, k); } else { assert writes[..k] == writes; }
      }
      RowsWereWritten(writes);
      forall w | w in writes ensures TrueWrite(w) {
        var k :| 0 <= k < |writes| && writes[k] == w;
        assert GoodAt(writes, moments, k);
      }
      forall r | r in OnDisk().reference ensures Truthful(r, false) { assert TrueWrite(ToReference(r)); }
      forall r | r in OnDisk().candidate ensures Truthful(r, true) { assert TrueWrite(ToCandidate(r)); }
    }

    /** If any of the writes had failed, the files would be settled after as many writes of the handler as succeed. */
    lemma SettledWhereverItFails(k: nat, error: string, j: nat)
      requires Safe() && k < |writes| && j <= 3
      ensures k < |moments|
      ensures Settled(Ids(), Replay(writes[..k] + FailureWrites(moments[k], |selected|, error)[..j]))
    {
      assert GoodAt(writes, moments, k);
      FailureSettles(Ids(), writes[..k], moments[k], |selected|, error, j);
    }

    lemma {:induction false} StillGood(ws: seq<Write>, ms: seq<Moment>, w: Write, m: Moment, k: nat)
      requires k < |ws| == |ms| && GoodAt(ws, ms, k)
      ensures GoodAt(ws + [w], ms + [m], k)
    {
      assert (ws + [w])[..k] == ws[..k];
    }

    // ----- single writes -----

    /** The only way to change the files. */
    method Do(w: Write)
      requires Safe() && TrueWrite(w) && Tracks(Now(), OnDisk()) && Consistent(Ids(), Apply(OnDisk(), w))
      modifies this`writes, this`moments
      ensures Safe() && writes == old(writes) + [w] && OnDisk() == Apply(old(OnDisk()), w)
      ensures moments == old(moments) + [Now()]
    {
      ReplayNext(writes, w);
      ghost var ws, ms := writes + [w], moments + [Now()];
      forall k | 0 <= k < |ws|
        ensures GoodAt(ws, ms, k)
      {
        if k < |writes| { StillGood(writes, moments, w, Now(), k); } else { assert ws[..k] == writes; }
      }
      writes, moments := writes + [w], moments + [Now()];
    }

    method Journal(e: Event)
      requires Safe() && Tracks(Now(), OnDisk()) && Consistent(Ids(), Apply(OnDisk(), ToJournal(e)))
      modifies this`writes, this`moments
      ensures Safe() && writes == old(writes) + [ToJournal(e)] && OnDisk() == Apply(old(OnDisk()), ToJournal(e))
      ensures MarksOf(OnDisk().journal) == Mark(old(MarksOf(OnDisk().journal)), e)
    {
      MarksNext(OnDisk().journal, e);
      Do(ToJournal(e));
    }

    method AppendReference(r: ProgressRow)
      requires Safe() && Truthful(r, false) && Tracks(Now(), OnDisk())
               && Consistent(Ids(), Apply(OnDisk(), ToReference(r)))
      modifies this`writes, this`moments
      ensures Safe() && writes == old(writes) + [ToReference(r)] && OnDisk() == Apply(old(OnDisk()), ToReference(r))
      ensures RowIds(OnDisk().reference) == old(RowIds(OnDisk().reference)) + [r.caseId]
    {
      RowIdsNext(OnDisk().reference, r);
      Do(ToReference(r));
    }

    method AppendCandidate(r: ProgressRow)
      requires Safe() && Truthful(r, true) && Tracks(Now(), OnDisk())
               && Consistent(Ids(), Apply(OnDisk(), ToCandidate(r)))
      modifies this`writes, this`moments
      ensures Safe() && writes == old(writes) + [ToCandidate(r)] && OnDisk() == Apply(old(OnDisk()), ToCandidate(r))
      ensures RowIds(OnDisk().candidate) == old(RowIds(OnDisk().candidate)) + [r.caseId]
    {
      RowIdsNext(OnDisk().candidate, r);
      Do(ToCandidate(r));
    }

    /** What `persist` may rely on: the local variables say what the journal says. */
    ghost predicate Persistable()
      reads this
    {
      var m := MarksOf(OnDisk().journal);
      && |m.started| == position
      && |m.finished| == |caseResults| + |unsupported|
      && m.completed == CaseIds(caseResults)
    }

    /** Whether the partial result is due with the state file. */
    predicate Due(status: Status, checkpoint: bool)
      reads this`position
    {
      checkpoint || status.Failed? || Since(position, Every(setup.checkpointEvery)) == 0
    }

    function StateNow(status: Status): StateFile
      reads this`position, this`caseResults, this`unsupported
    {
      StateFile(status, position, |selected|, |caseResults|, |unsupported|)
    }

    function PartialNow(status: Status): PartialFile
      reads this`position, this`caseResults, this`unsupported
    {
      PartialFile(status, position, caseResults, unsupported)
    }

    /** The state file first, and then the partial result if it is due. */
    function PersistWrites(status: Status, checkpoint: bool): seq<Write>
      reads this`position, this`caseResults, this`unsupported
    {
      [ToState(StateNow(status))] + if Due(status, checkpoint) then [ToPartial(PartialNow(status))] else []
    }

    method ReplaceState(status: Status)
      requires Safe() && Persistable() && (status == Completed ==> MarksOf(OnDisk().journal).ended)
      modifies this`writes, this`moments
      ensures Safe() && Persistable() && writes == old(writes) + [ToState(StateNow(status))]
      ensures OnDisk() == old(OnDisk()).(state := Some(StateNow(status)))
    {
      var state := StateNow(status);
      StateFits(Ids(), OnDisk(), state);
      Do(ToState(state));
    }

    method ReplacePartial(status: Status)
      requires Safe() && Persistable()
      modifies this`writes, this`moments
      ensures Safe() && writes == old(writes) + [ToPartial(PartialNow(status))]
      ensures OnDisk() == old(OnDisk()).(partial := Some(PartialNow(status)))
    {
      PartialFits(Ids(), OnDisk(), PartialNow(status));
      Do(ToPartial(PartialNow(status)));
    }

    /** Replace the state file, and at a checkpoint the partial result after it. */
    method Persist(status: Status, checkpoint: bool)
      requires Safe() && Persistable() && (status == Completed ==> MarksOf(OnDisk().journal).ended)
      modifies this`writes, this`moments
      ensures Safe() && writes == old(writes) + PersistWrites(status, checkpoint)
      ensures OnDisk().state == Some(StateFile(status, position, |selected|, |caseResults|, |unsupported|))
      ensures checkpoint || status.Failed? ==>
                OnDisk().partial == Some(PartialFile(status, position, caseResults, unsupported))
      ensures OnDisk() == old(OnDisk()).(
                state := Some(StateNow(status)),
                partial := if Due(status, checkpoint) then Some(PartialNow(status)) else old(OnDisk()).partial)
    {
      var due := IsDue(status, checkpoint);
      ReplaceState(status);
      if due {
        ReplacePartial(status);
      }
    }

    method IsDue(status: Status, checkpoint: bool) returns (due: bool)
      ensures due == Due(status, checkpoint)
    {
      SinceIsRemainder(position, Every(setup.checkpointEvery));
      due := checkpoint || status.Failed? || position % Every(setup.checkpointEvery) == 0;
    }

    // ----- one case -----

    /** The results so far are those of the first `p` selected cases. */
    ghost predicate Computed(p: nat)
      reads this
    {
      && p <= |selected|
      && caseResults == ResultsFor(outcomes, selected[..p])
      && unsupported == UnsupportedFor(outcomes, selected[..p])
      && oracleQueries == QueriesFor(|caseResults|)
    }

    /** One oracle query per evaluated case when observations are reused, two otherwise. */
    function QueriesFor(cases: nat): nat {
      if setup.opening == Value(true) then cases else 2 * cases
    }

    /** The partial result is that of the last checkpoint: the last multiple of the interval. */
    ghost predicate Checkpointed(status: Status)
      reads this
    {
      var since := Since(position, Every(setup.checkpointEvery));
      && OnDisk().partial.Some?
      && OnDisk().partial.value.position == position - since
      && (since == 0 ==> OnDisk().partial.value == PartialNow(status))
      && CaseIds(OnDisk().partial.value.cases) <= CaseIds(caseResults)
    }

    /** The files at a point where `started` and `finished` cases are journaled, and `reference`, `candidate`
        observed. */
    ghost predicate Files(status: Status, started: seq<Id>, finished: seq<Id>, reference: seq<Id>, candidate: seq<Id>)
      reads this
    {
      && MarksOf(OnDisk().journal) ==
           Marks(started, finished, reference, candidate, CaseIds(caseResults), VerdictsOf(caseResults),
                 |started|, true, false)
      && RowIds(OnDisk().reference) == reference && RowIds(OnDisk().candidate) == candidate
      && |finished| == |caseResults| + |unsupported|
      && OnDisk().state == Some(StateNow(status))
      && OnDisk().output.None?
      && Checkpointed(status)
    }

    /** Before the targets are open. */
    ghost predicate Opening()
      reads this
    {
      position == 0 && caseResults == [] && unsupported == [] && Files(Starting, [], [], [], [])
    }

    /** Between cases: the first `p` are finished, and the state file says so. */
    ghost predicate AtHead(p: nat)
      reads this
    {
      && p <= |selected| && position == p
      && Files(Running, Ids()[..p], Ids()[..p], CaseIds(caseResults), CaseIds(caseResults))
    }

    ghost function Observed(p: nat, current: bool): seq<Id>
      requires p < |selected|
      reads this
    {
      if current then CaseIds(caseResults) + [selected[p].caseId] else CaseIds(caseResults)
    }

    /** Inside case `p`, after `k` observations. */
    ghost predicate InCase(p: nat, k: nat)
      reads this
    {
      && p < |selected| && position == p + 1
      && Files(Running, Ids()[..p + 1], Ids()[..p], Observed(p, k >= 1), Observed(p, k >= 2))
    }

    lemma IdsStep(p: nat)
      requires p < |selected|
      ensures Ids()[..p + 1] == Ids()[..p] + [selected[p].caseId]
      ensures Ids()[..p] <= Ids() && Ids()[..p + 1] <= Ids()
    {
    }

    /** The start of a case in the journal, ahead of the state file. */
    method JournalStart(p: nat)
      requires Safe() && AtHead(p) && p < |selected|
      modifies this`writes, this`moments, this`position
      ensures Safe() && Persistable() && position == p + 1
      ensures writes == old(writes) + [ToJournal(CaseStarted(p + 1, selected[p].caseId))]
      ensures OnDisk() == Apply(old(OnDisk()), ToJournal(CaseStarted(p + 1, selected[p].caseId)))
      ensures MarksOf(OnDisk().journal)
              == old(MarksOf(OnDisk().journal)).(started := Ids()[..p + 1], lastStarted := p + 1)
    {
      IdsStep(p);
      position := p + 1;
      Journal(CaseStarted(p + 1, selected[p].caseId));
    }

    method StartCase(p: nat)
      requires Safe() && AtHead(p) && p < |selected|
      modifies this`writes, this`moments, this`position
      ensures Safe() && InCase(p, 0)
      ensures writes == old(writes) + [ToJournal(CaseStarted(p + 1, selected[p].caseId))]
                        + PersistWrites(Running, false)
    {
      JournalStart(p);
      ghost var journaled := OnDisk();
      Persist(Running, false);
      assert OnDisk().journal == journaled.journal;
      assert Checkpointed(Running);
    }

    function RowOf(p: nat, observation: Observation): ProgressRow
      requires p < |selected|
    {
      ProgressRow(selected[p].caseId, selected[p].contract, p + 1, observation)
    }

    method RecordReference(p: nat, observation: Observation)
      requires Safe() && InCase(p, 0) && setup.targets.referenceExecute(selected[p]) == Value(observation)
      modifies this`writes, this`moments
      ensures Safe() && InCase(p, 1)
      ensures writes == old(writes) + [ToReference(RowOf(p, observation))]
                        + [ToJournal(ReferenceObserved(p + 1, selected[p].caseId))]
                        + PersistWrites(Running, false)
    {
      IdsStep(p);
      var row := selected[p];
      RowIdsNext(OnDisk().reference, RowOf(p, observation));
      AppendReference(RowOf(p, observation));
      Journal(ReferenceObserved(p + 1, row.caseId));
      Persist(Running, false);
    }

    method RecordCandidate(p: nat, observation: Observation)
      requires Safe() && InCase(p, 1) && CandidateOn(selected[p]) == Value(observation)
      modifies this`writes, this`moments
      ensures Safe() && InCase(p, 2)
      ensures writes == old(writes) + [ToCandidate(RowOf(p, observation))]
                        + [ToJournal(CandidateObserved(p + 1, selected[p].caseId))]
    {
      IdsStep(p);
      var row := selected[p];
      RowIdsNext(OnDisk().candidate, RowOf(p, observation));
      AppendCandidate(RowOf(p, observation));
      Journal(CandidateObserved(p + 1, row.caseId));
    }

    /** A finished case in the journal. */
    method JournalVerdict(p: nat, result: CaseResult)
      requires Safe() && InCase(p, 2) && result.caseId == selected[p].caseId
      modifies this`writes, this`moments, this`caseResults
      ensures Safe() && Persistable() && position == p + 1
      ensures caseResults == old(caseResults) + [result]
      ensures writes == old(writes) + [ToJournal(CaseCompleted(p + 1, result.caseId, result.passed))]
      ensures OnDisk() == Apply(old(OnDisk()), ToJournal(CaseCompleted(p + 1, result.caseId, result.passed)))
      ensures MarksOf(OnDisk().journal)
              == Mark(old(MarksOf(OnDisk().journal)), CaseCompleted(p + 1, result.caseId, result.passed))
    {
      IdsStep(p);
      ghost var before := OnDisk();
      VerdictFits(Ids(), before, result.caseId, result.passed);
      caseResults := caseResults + [result];
      assert CaseIds(caseResults) == CaseIds(old(caseResults)) + [result.caseId];
      assert OnDisk() == before;
      Journal(CaseCompleted(p + 1, result.caseId, result.passed));
      assert MarksOf(OnDisk().journal).completed == MarksOf(before.journal).completed + [result.caseId];
      assert MarksOf(OnDisk().journal).started == MarksOf(before.journal).started;
    }

    method CompleteCase(p: nat, result: CaseResult)
      requires Safe() && InCase(p, 2) && result.caseId == selected[p].caseId
      modifies this`writes, this`moments, this`caseResults
      ensures Safe() && AtHead(p + 1)
      ensures caseResults == old(caseResults) + [result]
      ensures writes == old(writes) + [ToJournal(CaseCompleted(p + 1, result.caseId, result.passed))]
                        + PersistWrites(Running, false)
    {
      IdsStep(p);
      JournalVerdict(p, result);
      assert CaseIds(caseResults) == CaseIds(old(caseResults)) + [result.caseId];
      assert VerdictsOf(caseResults) == VerdictsOf(old(caseResults)) + [result.passed];
      Persist(Running, false);
    }

    /** The results after the first `p` cases, and one or two oracle queries for each of them. */
    lemma Advance(p: nat)
      requires p < |selected|
      ensures selected[..p + 1] == selected[..p] + [selected[p]]
      ensures ResultsFor(outcomes, selected[..p + 1]) ==
              ResultsFor(outcomes, selected[..p]) + DoneOf(outcomes(selected[p]))
      ensures UnsupportedFor(outcomes, selected[..p + 1]) ==
              UnsupportedFor(outcomes, selected[..p]) + SkippedOf(outcomes(selected[p]))
    {
      assert selected[..p + 1] == selected[..p] + [selected[p]];
      OutcomesSnoc(outcomes, selected[..p], selected[p]);
    }

    /** An unsupported case in the journal. */
    method JournalSkip(p: nat, reason: string)
      requires Safe() && InCase(p, 0)
      modifies this`writes, this`moments, this`unsupported
      ensures Safe() && Persistable() && position == p + 1
      ensures unsupported == old(unsupported) + [Unsupported(selected[p].caseId, reason)]
      ensures writes == old(writes) + [ToJournal(CaseUnsupported(p + 1, selected[p].caseId))]
      ensures OnDisk() == Apply(old(OnDisk()), ToJournal(CaseUnsupported(p + 1, selected[p].caseId)))
      ensures MarksOf(OnDisk().journal)
              == Mark(old(MarksOf(OnDisk().journal)), CaseUnsupported(p + 1, selected[p].caseId))
    {
      IdsStep(p);
      unsupported := unsupported + [Unsupported(selected[p].caseId, reason)];
      Journal(CaseUnsupported(p + 1, selected[p].caseId));
    }

    method SkipCase(p: nat, reason: string)
      requires Safe() && InCase(p, 0) && Computed(p)
      requires outcomes(selected[p]) == Skipped(Unsupported(selected[p].caseId, reason))
      modifies this`writes, this`moments, this`unsupported
      ensures Safe() && AtHead(p + 1) && Computed(p + 1)
      ensures writes == old(writes) + [ToJournal(CaseUnsupported(p + 1, selected[p].caseId))]
                        + PersistWrites(Running, false)
    {
      IdsStep(p);
      Advance(p);
      JournalSkip(p, reason);
      Persist(Running, false);
    }

    /** Query the oracle. */
    method ObserveReference(p: nat) returns (answer: Answer<Observation>)
      requires Safe() && InCase(p, 0)
      modifies this`writes, this`moments, this`oracleQueries
      ensures Safe() && old(writes) <= writes
      ensures answer == setup.targets.referenceExecute(selected[p])
      ensures answer.Value? ==>
                writes == old(writes) + [ToReference(RowOf(p, answer.value))]
                          + [ToJournal(ReferenceObserved(p + 1, selected[p].caseId))]
                          + PersistWrites(Running, false)
      ensures if answer.Value? then InCase(p, 1) && oracleQueries == old(oracleQueries) + 1
              else InCase(p, 0) && oracleQueries == old(oracleQueries) && writes == old(writes)
    {
      answer := setup.targets.referenceExecute(selected[p]);
      if answer.Value? {
        oracleQueries := oracleQueries + 1;
        RecordReference(p, answer.value);
      }
    }

    /** Query the candidate, or reuse the oracle's observation. */
    method ObserveCandidate(p: nat, reference: Observation) returns (answer: Answer<Observation>)
      requires Safe() && InCase(p, 1) && setup.targets.referenceExecute(selected[p]) == Value(reference)
      modifies this`writes, this`moments, this`oracleQueries
      ensures Safe() && old(writes) <= writes
      ensures answer == CandidateAnswer(setup, selected[p], reference)
      ensures answer.Value? ==>
                writes == old(writes) + [ToCandidate(RowOf(p, answer.value))]
                          + [ToJournal(CandidateObserved(p + 1, selected[p].caseId))]
      ensures if answer.Value? then InCase(p, 2) && oracleQueries == old(oracleQueries) + QueriesFor(1) - 1
              else InCase(p, 1) && oracleQueries == old(oracleQueries) && writes == old(writes)
    {
      if setup.opening == Value(true) {
        answer := Value(reference);
      } else {
        answer := setup.targets.candidateExecute(selected[p]);
        if answer.Raise? {
          return;
        }
        oracleQueries := oracleQueries + 1;
      }
      RecordCandidate(p, answer.value);
    }

    /** Both targets support the case at index `p`, and its Contract is known. */
    ghost predicate Supported(p: nat)
      requires p < |selected|
    {
      && setup.targets.referenceSupports(selected[p]) == Value(true)
      && setup.targets.candidateSupports(selected[p]) == Value(true)
      && selected[p].contract in setup.contracts
    }

    /** The exception of a supported case is that of the first target to raise. */
    lemma SupportedRaises(p: nat, error: string)
      requires AllWired() && p < |selected| && Supported(p)
      requires CandidateOn(selected[p]) == Raise(error)
      ensures outcomes(selected[p]) == Raised(error)
    {
      assert Wired(p);
    }

    /** Compare the two observations. */
    method Judge(p: nat, reference: Observation, candidate: Observation) returns (result: CaseResult)
      requires AllWired() && p < |selected| && Supported(p)
      requires setup.targets.referenceExecute(selected[p]) == Value(reference)
      requires CandidateAnswer(setup, selected[p], reference) == Value(candidate)
      ensures outcomes(selected[p]) == Done(result) && result.caseId == selected[p].caseId
      ensures RatioReported(reference, candidate, result.performanceRatio)
    {
      var row := selected[p];
      RatioIs(reference, candidate);
      assert Wired(p);
      var passed, _ := CompareObservations(setup.lib, reference, candidate, setup.contracts[row.contract]);
      result := CaseResult(row.caseId, row.contract, passed, PerformanceRatio(reference, candidate));
    }

    /** How one case ends: finished, with its outcome counted, or started only, with an exception. */
    ghost predicate CaseEnds(p: nat, failure: Option<string>)
      requires p < |selected|
      reads this
    {
      match failure
      case None => AtHead(p + 1) && Computed(p + 1) && !outcomes(selected[p]).Raised?
      case Some(error) => (InCase(p, 0) || InCase(p, 1)) && outcomes(selected[p]) == Raised(error)
    }

    /** Record the verdict on two observations. */
    method FinishCase(p: nat, reference: Observation, candidate: Observation)
      requires AllWired() && Safe() && InCase(p, 2) && Supported(p)
      requires caseResults == ResultsFor(outcomes, selected[..p])
               && unsupported == UnsupportedFor(outcomes, selected[..p])
      requires oracleQueries == QueriesFor(|caseResults| + 1)
      requires setup.targets.referenceExecute(selected[p]) == Value(reference)
      requires CandidateAnswer(setup, selected[p], reference) == Value(candidate)
      modifies this`writes, this`moments, this`caseResults
      ensures Safe() && old(writes) <= writes && CaseEnds(p, None)
    {
      var result := Judge(p, reference, candidate);
      CompleteCase(p, result);
      Advance(p);
    }

    /** The candidate's side of a supported case. */
    method ObserveAndFinish(p: nat, reference: Observation) returns (failure: Option<string>)
      requires AllWired() && Safe() && InCase(p, 1) && Supported(p)
      requires caseResults == ResultsFor(outcomes, selected[..p])
               && unsupported == UnsupportedFor(outcomes, selected[..p])
      requires oracleQueries == QueriesFor(|caseResults|) + 1
      requires setup.targets.referenceExecute(selected[p]) == Value(reference)
      modifies this`writes, this`moments, this`caseResults, this`oracleQueries
      ensures Safe() && old(writes) <= writes && CaseEnds(p, failure)
      ensures failure.Some? ==> caseResults == old(caseResults)
    {
      var candidate := ObserveCandidate(p, reference);
      if candidate.Raise? {
        SupportedRaises(p, candidate.error);
        return Some(candidate.error);
      }
      FinishCase(p, reference, candidate.value);
      failure := None;
    }

    /** Observe a supported case on both targets. */
    method ObserveCase(p: nat) returns (failure: Option<string>)
      requires AllWired() && Safe() && InCase(p, 0) && Computed(p) && Supported(p)
      modifies this`writes, this`moments, this`caseResults, this`oracleQueries
      ensures Safe() && old(writes) <= writes && CaseEnds(p, failure)
      ensures failure.Some? ==> caseResults == old(caseResults)
    {
      var reference := ObserveReference(p);
      if reference.Raise? {
        SupportedRaises(p, reference.error);
        return Some(reference.error);
      }
      failure := ObserveAndFinish(p, reference.value);
    }

    /** Ask both targets whether they support the case; the first that does not gives the reason to skip it. */
    method Support(p: nat) returns (answer: Answer<Option<string>>)
      requires AllWired() && p < |selected|
      ensures answer.Raise? ==> outcomes(selected[p]) == Raised(answer.error)
      ensures answer.Value? && answer.value.Some? ==>
                outcomes(selected[p]) == Skipped(Unsupported(selected[p].caseId, answer.value.value))
      ensures answer == Value(None) ==>
                if selected[p].contract in setup.contracts then Supported(p)
                else outcomes(selected[p]) == Raised("KeyError")
    {
      var row := selected[p];
      assert Wired(p);
      var r := setup.targets.referenceSupports(row);
      if r.Raise? {
        return Raise(r.error);
      }
      if !r.value {
        return Value(Some("reference transport unsupported"));
      }
      var c := setup.targets.candidateSupports(row);
      if c.Raise? {
        return Raise(c.error);
      }
      answer := Value(if c.value then None else Some("candidate transport unsupported"));
    }

    /** A started case: skipped, observed, or stopped by an exception. */
    method SettleCase(p: nat) returns (failure: Option<string>)
      requires AllWired() && Safe() && InCase(p, 0) && Computed(p)
      modifies this`writes, this`moments, this`caseResults, this`unsupported, this`oracleQueries
      ensures Safe() && old(writes) <= writes && CaseEnds(p, failure)
      ensures failure.Some? ==> caseResults == old(caseResults) && unsupported == old(unsupported)
    {
      var support := Support(p);
      if support.Raise? {
        return Some(support.error);
      }
      if support.value.Some? {
        SkipCase(p, support.value.value);
        return None;
      }
      if selected[p].contract !in setup.contracts {
        return Some("KeyError");
      }
      failure := ObserveCase(p);
    }

    /** One turn of the case loop. A raising target leaves the case started and unfinished. */
    method EvaluateCase(p: nat) returns (failure: Option<string>)
      requires AllWired() && Safe() && AtHead(p) && p < |selected| && Computed(p)
      modifies this`writes, this`moments, this`position, this`caseResults, this`unsupported, this`oracleQueries
      ensures Safe() && old(writes) <= writes && CaseEnds(p, failure)
      ensures failure.Some? ==> caseResults == old(caseResults) && unsupported == old(unsupported)
    {
      StartCase(p);
      failure := SettleCase(p);
    }

    // ----- the run -----

    method JournalRun()
      requires Safe() && writes == []
      requires position == 0 && caseResults == [] && unsupported == []
      modifies this`writes, this`moments
      ensures Safe() && Persistable() && writes == [ToJournal(RunStarted(|selected|))]
      ensures OnDisk() == EMPTY_DISK.(journal := [RunStarted(|selected|)])
      ensures MarksOf(OnDisk().journal) == Marks([], [], [], [], [], [], 0, true, false)
    {
      StartFits(Ids(), |selected|);
      Journal(RunStarted(|selected|));
    }

    /** Journal the start and write the first checkpoint. */
    method Start()
      requires Safe() && writes == []
      requires position == 0 && caseResults == [] && unsupported == []
      modifies this`writes, this`moments
      ensures Safe() && Opening()
      ensures writes == [ToJournal(RunStarted(|selected|))] + PersistWrites(Starting, true)
    {
      JournalRun();
      Persist(Starting, true);
    }

    lemma QuietNext(p: nat)
      requires p < |selected| && Quiet(outcomes, selected[..p])
      ensures Quiet(outcomes, selected[..p + 1]) <==> !outcomes(selected[p]).Raised?
      ensures outcomes(selected[p]).Raised? ==> !Quiet(outcomes, selected)
    {
      assert selected[..p + 1] == selected[..p] + [selected[p]];
      assert selected[p] in selected && selected[p] in selected[..p + 1];
    }

    /** One turn in terms of the whole selection. */
    method Turn(p: nat) returns (failure: Option<string>)
      requires AllWired() && Safe() && AtHead(p) && p < |selected| && Computed(p) && Quiet(outcomes, selected[..p])
      modifies this`writes, this`moments, this`position, this`caseResults, this`unsupported, this`oracleQueries
      ensures Safe() && old(writes) <= writes
      ensures failure.None? ==> AtHead(p + 1) && Computed(p + 1) && Quiet(outcomes, selected[..p + 1])
      ensures failure.Some? ==> Interrupted() && Reached(failure.value) && !Quiet(outcomes, selected)
    {
      QuietNext(p);
      failure := EvaluateCase(p);
    }

    /** The case loop, up to the first target call that raises. */
    method EvaluateCases() returns (failure: Option<string>)
      requires AllWired() && Safe() && AtHead(0) && Computed(0)
      modifies this`writes, this`moments, this`position, this`caseResults, this`unsupported, this`oracleQueries
      ensures Safe() && old(writes) <= writes
      ensures failure.None? ==> AtHead(|selected|) && Computed(|selected|)
      ensures failure.None? <==> Quiet(outcomes, selected)
      ensures failure.Some? ==> Interrupted() && Reached(failure.value)
    {
      failure := None;
      for p := 0 to |selected|
        invariant Safe() && AtHead(p) && Computed(p) && old(writes) <= writes
        invariant Quiet(outcomes, selected[..p]) && failure.None?
      {
        failure := Turn(p);
        if failure.Some? {
          return;
        }
      }
      assert selected[..|selected|] == selected;
    }

    /** The run got as far as case `position`, whose targets raised `error`; the results are those of the cases before
        it. */
    ghost predicate Reached(error: string)
      reads this
    {
      && 1 <= position <= |selected|
      && Quiet(outcomes, selected[..position - 1])
      && outcomes(selected[position - 1]) == Raised(error)
      && caseResults == ResultsFor(outcomes, selected[..position - 1])
      && unsupported == UnsupportedFor(outcomes, selected[..position - 1])
    }

    /** Inside the case at `position`, before its second observation. */
    ghost predicate Interrupted()
      reads this
    {
      position >= 1 && (InCase(position - 1, 0) || InCase(position - 1, 1))
    }

    /** No result file, and every case started is finished but for the one at `position`, if any. */
    ghost predicate Halted()
      reads this
    {
      var m := MarksOf(OnDisk().journal);
      && position <= |selected|
      && OnDisk().output.None? && !m.ended
      && m.started == Ids()[..position]
      && m.finished == Ids()[..if position == 0 then 0 else position - 1]
    }

    /** How a run that does not complete leaves things: the failure is in the state and partial files. */
    ghost predicate FailedWith(error: string)
      reads this
    {
      && Halted()
      && OnDisk().state == Some(StateNow(Failed(error))) && OnDisk().partial == Some(PartialNow(Failed(error)))
      && if setup.opening.Raise? then setup.opening.error == error && position == 0 else Reached(error)
    }

    lemma HaltedWhenOpening()
      requires Opening()
      ensures Halted() && Persistable()
    {
    }

    lemma HaltedWhenInterrupted()
      requires Interrupted()
      ensures Halted() && Persistable()
    {
      IdsStep(position - 1);
    }

    method JournalFailure(error: string)
      requires Safe() && Persistable()
      modifies this`writes, this`moments
      ensures Safe() && writes == old(writes) + [ToJournal(RunFailed(position, error))]
      ensures OnDisk() == old(OnDisk()).(journal := OnDisk().journal)
              && MarksOf(OnDisk().journal) == old(MarksOf(OnDisk().journal))
    {
      MarksNext(OnDisk().journal, RunFailed(position, error));
      assert Mark(MarksOf(OnDisk().journal), RunFailed(position, error)) == MarksOf(OnDisk().journal);
      Journal(RunFailed(position, error));
    }

    /** Journal the exception and write the last checkpoint. */
    method RecordFailure(error: string)
      requires Safe() && Persistable()
      modifies this`writes, this`moments
      ensures Safe()
      ensures writes == old(writes) + [ToJournal(RunFailed(position, error))] + PersistWrites(Failed(error), true)
      ensures MarksOf(OnDisk().journal) == old(MarksOf(OnDisk().journal)) && OnDisk().output == old(OnDisk().output)
      ensures OnDisk().state == Some(StateNow(Failed(error))) && OnDisk().partial == Some(PartialNow(Failed(error)))
    {
      JournalFailure(error);
      Persist(Failed(error), true);
    }

    method Fail(error: string)
      requires Safe() && Halted() && Persistable()
      requires if setup.opening.Raise? then setup.opening.error == error && position == 0 else Reached(error)
      modifies this`writes, this`moments
      ensures Safe() && FailedWith(error)
      ensures writes == old(writes) + [ToJournal(RunFailed(position, error))] + PersistWrites(Failed(error), true)
    {
      RecordFailure(error);
    }

    lemma WiredResults()
      requires AllWired()
      ensures ResultsFor(outcomes, selected) == ResultsFor(OutcomesUnder(setup), selected)
      ensures UnsupportedFor(outcomes, selected) == UnsupportedFor(OutcomesUnder(setup), selected)
    {
      forall p | 0 <= p < |selected|
        ensures outcomes(selected[p]) == OutcomesUnder(setup)(selected[p])
      {
        assert Wired(p);
      }
      OutcomesAgree(outcomes, OutcomesUnder(setup), selected);
    }

    /** Aggregate and score the case results. */
    method Report(runId: string, shardCount: int) returns (document: Document)
      requires AllWired() && Computed(|selected|)
      ensures document == RunDocument(setup, runId, shardCount, selected)
      ensures CasesOf(document) == caseResults && UnsupportedOf(document) == unsupported
    {
      assert selected[..|selected|] == selected;
      WiredResults();
      ResultsAreKnown(setup, selected);
      var aggregates := AggregateContractResults(caseResults);
      var scores := ScoreResults(setup.cfg, setup.math, caseResults, LevelsOf(setup.contracts), setup.profile);
      document := Document(
        Some(RESULT_SCHEMA), Some(setup.benchmarkVersion), Some(runId), Some(setup.profile),
        Some(scores.value), Some(aggregates),
        Some(SelectionDoc(Some(|selected|), |caseResults|, |unsupported|, shardCount == 1)),
        Some(caseResults), Some(unsupported));
    }

    /** How a completed run leaves things: every selected case finished, and every file agreeing on the result. */
    ghost predicate CompletedWith(document: Document)
      reads this
    {
      && OnDisk().output == Some(document)
      && MarksOf(OnDisk().journal).finished == Ids() && MarksOf(OnDisk().journal).ended
      && position == |selected|
      && OnDisk().state == Some(StateNow(Completed)) && OnDisk().partial == Some(PartialNow(Completed))
      && oracleQueries == QueriesFor(|caseResults|)
    }

    method WriteResult(document: Document)
      requires Safe() && Persistable() && MarksOf(OnDisk().journal).finished == Ids()
      modifies this`writes, this`moments
      ensures Safe() && Persistable() && writes == old(writes) + [ToOutput(document)]
      ensures OnDisk() == old(OnDisk()).(output := Some(document))
    {
      ResultFits(Ids(), OnDisk(), document);
      Do(ToOutput(document));
    }

    method JournalCompletion()
      requires Safe() && Persistable() && OnDisk().output.Some?
      modifies this`writes, this`moments
      ensures Safe() && Persistable() && writes == old(writes) + [ToJournal(RunCompleted(position))]
      ensures OnDisk() == old(OnDisk()).(journal := OnDisk().journal)
      ensures MarksOf(OnDisk().journal) == old(MarksOf(OnDisk().journal)).(ended := true)
    {
      CompletionFits(Ids(), OnDisk());
      Journal(RunCompleted(position));
    }

    /** The result file, and only then the event that the run completed. */
    method Publish(document: Document)
      requires Safe() && AtHead(|selected|)
      modifies this`writes, this`moments
      ensures Safe() && Persistable()
      ensures writes == old(writes) + [ToOutput(document)] + [ToJournal(RunCompleted(position))]
      ensures OnDisk() == old(OnDisk()).(journal := OnDisk().journal, output := Some(document))
      ensures MarksOf(OnDisk().journal) == old(MarksOf(OnDisk().journal)).(ended := true)
    {
      assert Ids()[..|selected|] == Ids();
      WriteResult(document);
      JournalCompletion();
    }

    /** Write the result file, and only then journal and record completion. */
    method Finish(document: Document)
      requires Safe() && AtHead(|selected|) && oracleQueries == QueriesFor(|caseResults|)
      modifies this`writes, this`moments
      ensures Safe() && CompletedWith(document)
      ensures writes == old(writes) + [ToOutput(document)] + [ToJournal(RunCompleted(position))]
                        + PersistWrites(Completed, true)
    {
      assert Ids()[..|selected|] == Ids();
      Publish(document);
      Persist(Completed, true);
    }

    /** Start, then open the targets. */
    method Open() returns (failure: Option<string>)
      requires Safe() && writes == []
      requires position == 0 && caseResults == [] && unsupported == []
      modifies this`writes, this`moments
      ensures Safe() && old(writes) <= writes
      ensures if setup.opening.Raise? then failure == Some(setup.opening.error) && FailedWith(setup.opening.error)
              else failure == None && AtHead(0)
    {
      Start();
      if setup.opening.Raise? {
        HaltedWhenOpening();
        Fail(setup.opening.error);
        return Some(setup.opening.error);
      }
      Persist(Running, false);
      failure := None;
    }

    /** Everything up to the end of the case loop, the failure included. */
    method Attempt() returns (failure: Option<string>)
      requires AllWired() && Safe() && writes == []
      requires position == 0 && caseResults == [] && unsupported == [] && oracleQueries == 0
      modifies this`writes, this`moments, this`position, this`caseResults, this`unsupported, this`oracleQueries
      ensures Safe() && old(writes) <= writes
      ensures failure.None? ==> AtHead(|selected|) && Computed(|selected|)
      ensures failure.None? <==> setup.opening.Value? && Quiet(outcomes, selected)
      ensures failure.Some? ==> FailedWith(failure.value)
    {
      failure := Open();
      if failure.Some? {
        return;
      }
      failure := EvaluateCases();
      if failure.Some? {
        HaltedWhenInterrupted();
        Fail(failure.value);
      }
    }

    method Conduct(runId: string, shardCount: int) returns (result: Result<Document, string>)
      requires AllWired() && Safe() && writes == []
      requires position == 0 && caseResults == [] && unsupported == [] && oracleQueries == 0
      modifies this`writes, this`moments, this`position, this`caseResults, this`unsupported, this`oracleQueries
      ensures Safe()
      ensures result.Ok? <==> setup.opening.Value? && Quiet(outcomes, selected)
      ensures result.Ok? ==>
                && CompletedWith(result.value)
                && caseResults == CasesOf(result.value) && unsupported == UnsupportedOf(result.value)
                && result.value == RunDocument(setup, runId, shardCount, selected)
      ensures result.Err? ==> FailedWith(result.error)
    {
      var failure := Attempt();
      if failure.Some? {
        return Err(failure.value);
      }
      var document := Report(runId, shardCount);
      Finish(document);
      result := Ok(document);
    }

    /** A whole run. It completes exactly when the targets open and no call for a selected case raises. Wherever the
        process stops, what it has written by then is consistent; and had any write raised instead, the files would be
        settled after each of the handler's three writes. */
    method Evaluate(runId: string, shardCount: int) returns (result: Result<Document, string>)
      requires AllWired() && Safe() && writes == []
      requires position == 0 && caseResults == [] && unsupported == [] && oracleQueries == 0
      modifies this`writes, this`moments, this`position, this`caseResults, this`unsupported, this`oracleQueries
      ensures forall k :: 0 <= k <= |writes| ==> Consistent(Ids(), Replay(writes[..k]))
      ensures |moments| == |writes|
      ensures forall k, e, j :: 0 <= k < |writes| && 0 <= j <= 3 ==>
                Settled(Ids(), Replay(writes[..k] + FailureWrites(moments[k], |selected|, e)[..j]))
      ensures forall r :: r in OnDisk().reference ==> Truthful(r, false)
      ensures forall r :: r in OnDisk().candidate ==> Truthful(r, true)
      ensures result.Ok? <==> setup.opening.Value? && Quiet(outcomes, selected)
      ensures result.Ok? ==>
                && CompletedWith(result.value)
                && caseResults == CasesOf(result.value) && unsupported == UnsupportedOf(result.value)
                && result.value == RunDocument(setup, runId, shardCount, selected)
      ensures result.Err? ==> FailedWith(result.error)
    {
      result := Conduct(runId, shardCount);
      SafeAtEveryMoment();
      forall k, e, j | 0 <= k < |writes| && 0 <= j <= 3
        ensures Settled(Ids(), Replay(writes[..k] + FailureWrites(moments[k], |selected|, e)[..j]))
      {
        SettledWhereverItFails(k, e, j);
      }
    }
  }
}
