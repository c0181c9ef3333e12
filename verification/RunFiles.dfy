/** The durable files of a run: what is written to them, what they then hold, and what they agree on at every moment. */
module RunFiles {
  import opened Sequences
  import opened Orders
  import opened Normalization
  import opened Scoring
  import opened Results

  datatype Event =
    | RunStarted(total: nat)
    | CaseStarted(position: nat, caseId: Id)
    | CaseUnsupported(position: nat, caseId: Id)
    | ReferenceObserved(position: nat, caseId: Id)
    | CandidateObserved(position: nat, caseId: Id)
    | CaseCompleted(position: nat, caseId: Id, passed: bool)
    | RunFailed(position: nat, error: string)
    | RunCompleted(position: nat)

  datatype ProgressRow = ProgressRow(caseId: Id, contract: Id, position: nat, observation: Observation)

  datatype Status = Starting | Running | Failed(error: string) | Completed

  datatype StateFile = StateFile(status: Status, position: nat, total: nat, evaluated: nat, unsupported: nat)

  datatype PartialFile = PartialFile(
    status: Status, position: nat, cases: seq<CaseResult>, unsupported: seq<Unsupported>)

  /** The durable files: three that only grow, and three that are replaced as a whole. */
  datatype Disk = Disk(
    journal: seq<Event>,
    reference: seq<ProgressRow>,
    candidate: seq<ProgressRow>,
    state: Option<StateFile>,
    partial: Option<PartialFile>,
    output: Option<Document>)

  // ----- what a journal says -----

  /** What a journal says: case ids and verdicts by kind of event, the position of the last start, whether every event
      carries the position of the case it belongs to, and whether the run completed. */
  datatype Marks = Marks(
    started: seq<Id>, finished: seq<Id>, reference: seq<Id>, candidate: seq<Id>, completed: seq<Id>,
    verdicts: seq<bool>, lastStarted: nat, orderly: bool, ended: bool)

  /** The position an event carries. */
  function At(m: Marks, position: nat): Marks {
    m.(orderly := m.orderly && position == m.lastStarted)
  }

  function Mark(m: Marks, e: Event): Marks {
    match e
    case RunStarted(_) => m
    case CaseStarted(position, id) =>
      m.(started := m.started + [id], lastStarted := position, orderly := m.orderly && position == m.lastStarted + 1)
    case CaseUnsupported(position, id) => At(m, position).(finished := m.finished + [id])
    case ReferenceObserved(position, id) => At(m, position).(reference := m.reference + [id])
    case CandidateObserved(position, id) => At(m, position).(candidate := m.candidate + [id])
    case CaseCompleted(position, id, passed) =>
      At(m, position).(
        finished := m.finished + [id], completed := m.completed + [id], verdicts := m.verdicts + [passed])
    case RunFailed(position, _) => At(m, position)
    case RunCompleted(position) => At(m, position).(ended := true)
  }

  function MarksOf(journal: seq<Event>): Marks {
    if journal == [] then Marks([], [], [], [], [], [], 0, true, false)
    else Mark(MarksOf(journal[..|journal| - 1]), journal[|journal| - 1])
  }

  lemma {:induction false} MarksNext(journal: seq<Event>, e: Event)
    ensures MarksOf(journal + [e]) == Mark(MarksOf(journal), e)
  {
    assert (journal + [e])[..|journal|] == journal;
  }

  function RowIds(rows: seq<ProgressRow>): seq<Id> {
    seq(|rows|, i requires 0 <= i < |rows| => rows[i].caseId)
  }

  lemma RowIdsNext(rows: seq<ProgressRow>, r: ProgressRow)
    ensures RowIds(rows + [r]) == RowIds(rows) + [r.caseId]
  {
  }

  // ----- consistency -----

  /** `shorter` is `longer`, or `longer` without its last element. */
  ghost predicate Trails(shorter: seq<Id>, longer: seq<Id>) {
    shorter <= longer && |longer| <= |shorter| + 1
  }

  function Counted(state: StateFile): nat {
    state.evaluated + state.unsupported
  }

  /** What the durable files of a run over `ids` agree on at every moment. */
  ghost predicate Consistent(ids: seq<Id>, d: Disk) {
    var m := MarksOf(d.journal);
    && m.started <= ids && m.lastStarted == |m.started| && m.orderly
    && Trails(m.finished, m.started)
    && Trails(RowIds(d.candidate), RowIds(d.reference))
    && Trails(m.reference, RowIds(d.reference))
    && Trails(m.candidate, RowIds(d.candidate))
    && m.completed <= m.candidate && Trails(m.completed, RowIds(d.reference))
    && (d.state.None? ==> m.started == [])
    && (d.state.Some? ==> d.state.value.position <= m.lastStarted <= d.state.value.position + 1)
    && (d.state.Some? ==> Counted(d.state.value) <= |m.finished| <= Counted(d.state.value) + 1)
    && (d.partial.Some? ==> CaseIds(d.partial.value.cases) <= m.completed)
    && (d.output.Some? ==> m.finished == ids)
    && (m.ended ==> d.output.Some?)
    && (d.state.Some? && d.state.value.status == Completed ==> m.ended)
  }

  // ----- writes -----

  /** One durable write: a line appended to one of three files, or one of three files replaced. */
  datatype Write =
    | ToJournal(event: Event)
    | ToReference(row: ProgressRow)
    | ToCandidate(row: ProgressRow)
    | ToState(state: StateFile)
    | ToPartial(partial: PartialFile)
    | ToOutput(document: Document)

  const EMPTY_DISK := Disk([], [], [], None, None, None)

  function Apply(d: Disk, w: Write): Disk {
    match w
    case ToJournal(e) => d.(journal := d.journal + [e])
    case ToReference(r) => d.(reference := d.reference + [r])
    case ToCandidate(r) => d.(candidate := d.candidate + [r])
    case ToState(s) => d.(state := Some(s))
    case ToPartial(p) => d.(partial := Some(p))
    case ToOutput(o) => d.(output := Some(o))
  }

  /** What the files hold after the given writes. */
  function Replay(writes: seq<Write>): Disk {
    if writes == [] then EMPTY_DISK else Apply(Replay(writes[..|writes| - 1]), writes[|writes| - 1])
  }

  lemma {:induction false} ReplayNext(writes: seq<Write>, w: Write)
    ensures Replay(writes + [w]) == Apply(Replay(writes), w)
  {
    assert (writes + [w])[..|writes|] == writes;
  }

  /** Whatever a file of lines held at one moment it still holds, in front, at every later one. */
  lemma {:induction false} LinesStay(writes: seq<Write>, k: nat)
    requires k <= |writes|
    ensures Replay(writes[..k]).journal <= Replay(writes).journal
    ensures Replay(writes[..k]).reference <= Replay(writes).reference
    ensures Replay(writes[..k]).candidate <= Replay(writes).candidate
    decreases |writes|
  {
    if k == |writes| {
      assert writes[..k] == writes;
    } else {
      var before := writes[..|writes| - 1];
      LinesStay(before, k);
      assert before[..k] == writes[..k];
    }
  }

  lemma {:induction false} RowsWereWritten(writes: seq<Write>)
    ensures forall r :: r in Replay(writes).reference ==> ToReference(r) in writes
    ensures forall r :: r in Replay(writes).candidate ==> ToCandidate(r) in writes
  {
    if writes != [] {
      RowsWereWritten(writes[..|writes| - 1]);
      assert writes == writes[..|writes| - 1] + [writes[|writes| - 1]];
    }
  }

  // ----- writes that keep the files consistent -----

  lemma StartFits(ids: seq<Id>, total: nat)
    ensures Consistent(ids, EMPTY_DISK) && Consistent(ids, Apply(EMPTY_DISK, ToJournal(RunStarted(total))))
    ensures MarksOf([]) == Marks([], [], [], [], [], [], 0, true, false)
  {
    MarksNext([], RunStarted(total));
  }

  lemma VerdictFits(ids: seq<Id>, d: Disk, id: Id, passed: bool)
    requires Consistent(ids, d)
    requires var m := MarksOf(d.journal);
             && m.started == m.finished + [id]
             && m.completed + [id] == RowIds(d.reference) == m.candidate
             && d.state.Some? && Counted(d.state.value) == |m.finished|
    ensures Consistent(ids, Apply(d, ToJournal(CaseCompleted(MarksOf(d.journal).lastStarted, id, passed))))
  {
    MarksNext(d.journal, CaseCompleted(MarksOf(d.journal).lastStarted, id, passed));
  }

  lemma StateFits(ids: seq<Id>, d: Disk, state: StateFile)
    requires Consistent(ids, d)
    requires var m := MarksOf(d.journal);
             && state.position == m.lastStarted && Counted(state) == |m.finished|
             && (state.status == Completed ==> m.ended)
    ensures Consistent(ids, Apply(d, ToState(state)))
  {
  }

  lemma PartialFits(ids: seq<Id>, d: Disk, partial: PartialFile)
    requires Consistent(ids, d) && CaseIds(partial.cases) <= MarksOf(d.journal).completed
    ensures Consistent(ids, Apply(d, ToPartial(partial)))
  {
  }

  lemma ResultFits(ids: seq<Id>, d: Disk, document: Document)
    requires Consistent(ids, d) && MarksOf(d.journal).finished == ids
    ensures Consistent(ids, Apply(d, ToOutput(document)))
  {
  }

  lemma CompletionFits(ids: seq<Id>, d: Disk)
    requires Consistent(ids, d) && d.output.Some?
    ensures Consistent(ids, Apply(d, ToJournal(RunCompleted(MarksOf(d.journal).lastStarted))))
    ensures Mark(MarksOf(d.journal), RunCompleted(MarksOf(d.journal).lastStarted)) == MarksOf(d.journal).(ended := true)
  {
    MarksNext(d.journal, RunCompleted(MarksOf(d.journal).lastStarted));
  }

  // ----- a run that fails at a write -----

  /** The local variables of a run that its files report on. */
  datatype Moment = Moment(position: nat, cases: seq<CaseResult>, unsupported: seq<Unsupported>)

  /** The local variables are at most one step ahead of the journal. */
  ghost predicate Tracks(now: Moment, d: Disk) {
    var m := MarksOf(d.journal);
    && m.lastStarted <= now.position <= m.lastStarted + 1
    && |m.finished| <= |now.cases| + |now.unsupported| <= |m.finished| + 1
    && Trails(m.completed, CaseIds(now.cases))
  }

  /** What the exception handler writes. */
  function FailureWrites(now: Moment, total: nat, error: string): seq<Write> {
    [ ToJournal(RunFailed(now.position, error)),
      ToState(StateFile(Failed(error), now.position, total, |now.cases|, |now.unsupported|)),
      ToPartial(PartialFile(Failed(error), now.position, now.cases, now.unsupported)) ]
  }

  /** What the files agree on after a failure: all but the position of the failure event, and the state and the partial
      result may be one case behind the journal or one ahead. */
  ghost predicate Settled(ids: seq<Id>, d: Disk) {
    var m := MarksOf(d.journal);
    && m.started <= ids && m.lastStarted == |m.started|
    && Trails(m.finished, m.started)
    && Trails(RowIds(d.candidate), RowIds(d.reference))
    && Trails(m.reference, RowIds(d.reference))
    && Trails(m.candidate, RowIds(d.candidate))
    && m.completed <= m.candidate && Trails(m.completed, RowIds(d.reference))
    && (d.state.Some? ==> d.state.value.position <= m.lastStarted + 1 && m.lastStarted <= d.state.value.position + 1)
    && (d.state.Some? ==> Counted(d.state.value) <= |m.finished| + 1 && |m.finished| <= Counted(d.state.value) + 1)
    && (d.partial.Some? ==>
         var cases := CaseIds(d.partial.value.cases); cases <= m.completed || Trails(m.completed, cases))
    && (d.output.Some? ==> m.finished == ids)
    && (m.ended ==> d.output.Some?)
    && (d.state.Some? && d.state.value.status == Completed ==> m.ended)
  }

  /** The files after the first `j` writes of `w`. */
  function Handled(d: Disk, w: seq<Write>, j: nat): Disk
    requires j <= |w|
  {
    if j == 0 then d else Apply(Handled(d, w, j - 1), w[j - 1])
  }

  lemma {:induction false} ReplayHandled(writes: seq<Write>, w: seq<Write>, j: nat)
    requires j <= |w|
    ensures Replay(writes + w[..j]) == Handled(Replay(writes), w, j)
  {
    if j == 0 {
      assert writes + w[..0] == writes;
    } else {
      ReplayHandled(writes, w, j - 1);
      assert writes + w[..j] == (writes + w[..j - 1]) + [w[j - 1]];
      ReplayNext(writes + w[..j - 1], w[j - 1]);
    }
  }

  lemma ConsistentIsSettled(ids: seq<Id>, d: Disk)
    requires Consistent(ids, d)
    ensures Settled(ids, d)
  {
  }

  lemma {:induction false} FailureEventSettles(ids: seq<Id>, d: Disk, position: nat, error: string)
    requires Settled(ids, d)
    ensures Settled(ids, Apply(d, ToJournal(RunFailed(position, error))))
    ensures var m, m' := MarksOf(d.journal), MarksOf(Apply(d, ToJournal(RunFailed(position, error))).journal);
            m' == m.(orderly := m'.orderly)
  {
    MarksNext(d.journal, RunFailed(position, error));
  }

  lemma {:induction false} FailureStateSettles(ids: seq<Id>, d: Disk, now: Moment, total: nat, error: string)
    requires Settled(ids, d) && Tracks(now, d)
    ensures var w := FailureWrites(now, total, error);
            Settled(ids, Apply(d, w[1])) && Settled(ids, Apply(Apply(d, w[1]), w[2]))
  {
  }

  /** If a write fails, the files are settled after as many writes of the handler as succeed. */
  lemma {:induction false} FailureSettles(ids: seq<Id>, writes: seq<Write>, now: Moment, total: nat, error: string,
                                          j: nat)
    requires Consistent(ids, Replay(writes)) && Tracks(now, Replay(writes)) && j <= 3
    ensures Settled(ids, Replay(writes + FailureWrites(now, total, error)[..j]))
  {
    var d, w := Replay(writes), FailureWrites(now, total, error);
    ReplayHandled(writes, w, j);
    ConsistentIsSettled(ids, d);
    FailureEventSettles(ids, d, now.position, error);
    FailureStateSettles(ids, Apply(d, w[0]), now, total, error);
    assert Handled(d, w, 0) == d && Handled(d, w, 1) == Apply(d, w[0]);
    assert Handled(d, w, 2) == Apply(Handled(d, w, 1), w[1]) && Handled(d, w, 3) == Apply(Handled(d, w, 2), w[2]);
  }
}
