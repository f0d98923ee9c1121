/**
 * The scheduler side of cal/emto-cpa.py: reading `squeue -o "%i %t"` output
 * into a status map, deciding each poll round, waiting for a batch of jobs,
 * and collecting job ids from `sbatch` output. The scheduler calls and
 * `time.sleep` are replaced by their inputs: the text a command printed, or
 * the status map each polling round reads.
 */
module JobMonitor {
  import opened Wrappers
  import opened Text

  // squeue state codes the poll loop distinguishes
  const Running := "R"
  const Configuring := "CF"
  const Pending := "PD"
  const Completing := "CG"

  // seconds slept: before every status read, and as back-off after a round that is not done
  const RoundDelay: nat := 5
  const QueuedDelay: nat := 115
  const RunningDelay: nat := 15

  /** A status row that does not split into exactly an id and a state (the unpacking raises ValueError). */
  datatype StatusError = MalformedLine(line: string)

  // ---------------------------------------------------------------------
  // get_job_status

  /** The rows get_job_status reads: the lines of the stripped output after the header line. */
  function StatusLines(stdout: string): seq<string> {
    Split(Strip(stdout), "\n")[1..]
  }

  /** The status map built from `lines` row by row; a later row for an id replaces an earlier one. */
  function StatusOf(lines: seq<string>): Result<map<string, string>, StatusError> {
    if lines == [] then Ok(map[])
    else match StatusOf(lines[..|lines| - 1])
      case Err(e) => Err(e)
      case Ok(m) =>
        var fields := Tokens(lines[|lines| - 1]);
        if |fields| != 2 then Err(MalformedLine(lines[|lines| - 1]))
        else Ok(m[fields[0] := fields[1]])
  }

  /** Once a prefix of the rows is malformed, so are all the rows. */
  lemma {:induction false} StatusErrPersists(lines: seq<string>, k: nat)
    requires k <= |lines| && StatusOf(lines[..k]).Err?
    ensures StatusOf(lines) == StatusOf(lines[..k])
    decreases |lines| - k
  {
    if k < |lines| {
      assert lines[..k + 1][..k] == lines[..k];
      StatusErrPersists(lines, k + 1);
    } else {
      assert lines[..k] == lines;
    }
  }

  lemma StatusStep(lines: seq<string>, i: nat)
    requires i < |lines|
    ensures StatusOf(lines[..i + 1]) == match StatusOf(lines[..i])
      case Err(e) => Err(e)
      case Ok(m) =>
        var fields := Tokens(lines[i]);
        if |fields| != 2 then Err(MalformedLine(lines[i])) else Ok(m[fields[0] := fields[1]])
  {
    assert lines[..i + 1][..i] == lines[..i];
  }

  method GetJobStatus(stdout: string) returns (r: Result<map<string, string>, StatusError>)
    ensures r == StatusOf(StatusLines(stdout))
  {
    var lines := Split(Strip(stdout), "\n")[1..];
    var status := map[];
    var i := 0;
    while i < |lines|
      invariant 0 <= i <= |lines|
      invariant StatusOf(lines[..i]) == Ok(status)
    {
      var fields := Tokens(lines[i]);
      StatusStep(lines, i);
      if |fields| != 2 {
        StatusErrPersists(lines, i + 1);
        return Err(MalformedLine(lines[i]));
      }
      status := status[fields[0] := fields[1]];
      i := i + 1;
    }
    TakeAll(lines);
    return Ok(status);
  }

  /** Every row holds exactly an id and a state. */
  ghost predicate WellFormed(lines: seq<string>) {
    forall i :: 0 <= i < |lines| ==> |Tokens(lines[i])| == 2
  }

  /** The rows are read without error exactly when each holds an id and a state. */
  lemma {:induction false} StatusOkIffWellFormed(lines: seq<string>)
    ensures StatusOf(lines).Ok? <==> WellFormed(lines)
  {
    if lines != [] {
      var init := lines[..|lines| - 1];
      StatusOkIffWellFormed(init);
      assert forall i :: 0 <= i < |init| ==> init[i] == lines[i];
    }
  }

  /** Well-formed rows: the last row overwrites the map read from the rows before it. */
  lemma StatusSnoc(lines: seq<string>)
    requires WellFormed(lines) && lines != []
    ensures WellFormed(lines[..|lines| - 1])
    ensures StatusOf(lines[..|lines| - 1]).Ok?
    ensures var fields := Tokens(lines[|lines| - 1]);
      StatusOf(lines) == Ok(StatusOf(lines[..|lines| - 1]).value[fields[0] := fields[1]])
  {
    var init := lines[..|lines| - 1];
    forall k | 0 <= k < |init|
      ensures |Tokens(init[k])| == 2
    {
      assert init[k] == lines[k];
    }
    StatusOkIffWellFormed(init);
  }

  /** The ids the rows name, read row by row. */
  ghost function Ids(lines: seq<string>): set<string> {
    if lines == [] then {}
    else
      var fields := Tokens(lines[|lines| - 1]);
      Ids(lines[..|lines| - 1]) + (if fields == [] then {} else {fields[0]})
  }

  lemma {:induction false} StatusKeySet(lines: seq<string>)
    requires WellFormed(lines)
    ensures StatusOf(lines).Ok? && StatusOf(lines).value.Keys == Ids(lines)
  {
    if lines != [] {
      StatusSnoc(lines);
      StatusKeySet(lines[..|lines| - 1]);
    }
  }

  /** Every id in the set names some row... */
  lemma {:induction false} IdRow(lines: seq<string>, id: string) returns (i: nat)
    requires WellFormed(lines) && id in Ids(lines)
    ensures i < |lines| && Tokens(lines[i])[0] == id
  {
    var init := lines[..|lines| - 1];
    StatusSnoc(lines);
    if id in Ids(init) {
      i := IdRow(init, id);
      assert init[i] == lines[i];
    } else {
      i := |lines| - 1;
    }
  }

  /** ...and every row's id is in the set. */
  lemma {:induction false} RowId(lines: seq<string>, i: nat)
    requires WellFormed(lines) && i < |lines|
    ensures Tokens(lines[i])[0] in Ids(lines)
  {
    var init := lines[..|lines| - 1];
    StatusSnoc(lines);
    if i < |init| {
      RowId(init, i);
      assert init[i] == lines[i];
    }
  }

  /** The status map holds exactly the ids named by the rows. */
  lemma StatusKeys(lines: seq<string>)
    requires WellFormed(lines)
    ensures StatusOf(lines).Ok?
    ensures forall id :: id in StatusOf(lines).value <==>
      exists i :: 0 <= i < |lines| && Tokens(lines[i])[0] == id
  {
    StatusKeySet(lines);
    forall id | id in StatusOf(lines).value
      ensures exists i :: 0 <= i < |lines| && Tokens(lines[i])[0] == id
    {
      var i := IdRow(lines, id);
    }
    forall i | 0 <= i < |lines|
      ensures Tokens(lines[i])[0] in StatusOf(lines).value
    {
      RowId(lines, i);
    }
  }

  /**
   * A row whose id no later row repeats gives that id its state in the
   * map: the last row for an id wins.
   */
  lemma {:induction false} StatusLastRowWins(lines: seq<string>, i: nat)
    requires WellFormed(lines) && i < |lines|
    requires forall j :: i < j < |lines| ==> Tokens(lines[j])[0] != Tokens(lines[i])[0]
    ensures StatusOf(lines).Ok? && Tokens(lines[i])[0] in StatusOf(lines).value
    ensures StatusOf(lines).value[Tokens(lines[i])[0]] == Tokens(lines[i])[1]
  {
    var init := lines[..|lines| - 1];
    StatusSnoc(lines);
    if i < |init| {
      assert init[i] == lines[i];
      forall j | i < j < |init|
        ensures Tokens(init[j])[0] != Tokens(init[i])[0]
      {
        assert init[j] == lines[j];
      }
      StatusLastRowWins(init, i);
      assert Tokens(lines[|lines| - 1])[0] != Tokens(lines[i])[0];
    }
  }

  /** Output holding only the header line (or nothing) yields an empty status map. */
  lemma HeaderOnly(stdout: string)
    requires '\n' !in Strip(stdout)
    ensures StatusOf(StatusLines(stdout)) == Ok(map[])
  {
    NotContainsFirstChar(Strip(stdout), "\n");
    assert Split(Strip(stdout), "\n") == [Strip(stdout)];
  }

  // ---------------------------------------------------------------------
  // check_job_completion

  /** What a polling round does next. */
  datatype Decision = Done | LongWait | ShortWait

  predicate AllCompleted(status: map<string, string>) {
    forall id :: id in status ==> status[id] == Completing
  }

  predicate AnyPending(status: map<string, string>) {
    exists id :: id in status && status[id] == Pending
  }

  /** The decision of one round: done when every job reports CG, the long wait when some job is pending. */
  function RoundDecision(status: map<string, string>): Decision {
    if AllCompleted(status) then Done
    else if AnyPending(status) then LongWait
    else ShortWait
  }

  /** Seconds slept after a round with decision `d`. */
  function Backoff(d: Decision): nat {
    match d
    case Done => 0
    case LongWait => QueuedDelay
    case ShortWait => RunningDelay
  }

  /** One round of check_job_completion: classify every state, then decide. */
  method PollRound(status: map<string, string>) returns (d: Decision)
    ensures d == RoundDecision(status)
  {
    var allCompleted := true;
    var hasJobQueuing := false;
    var unseen := status.Keys;
    while unseen != {}
      invariant unseen <= status.Keys
      invariant allCompleted <==>
        forall id :: id in status && id !in unseen ==> status[id] == Completing
      invariant hasJobQueuing <==>
        exists id :: id in status && id !in unseen && status[id] == Pending
      decreases unseen
    {
      var id :| id in unseen;
      var state := status[id];
      if state == Running {
        allCompleted := false;
      } else if state == Configuring {
        allCompleted := false;
      } else if state == Pending {
        allCompleted := false;
        hasJobQueuing := true;
      } else if state == Completing {
      } else {
        allCompleted := false;
      }
      unseen := unseen - {id};
    }
    if allCompleted {
      d := Done;
    } else if hasJobQueuing {
      d := LongWait;
    } else {
      d := ShortWait;
    }
  }

  /** An empty status map (squeue printed only its header) completes the round. */
  lemma NoJobsIsDone()
    ensures RoundDecision(map[]) == Done
  {
  }

  /** A job in any state but CG keeps the round from completing. */
  lemma UnfinishedBlocksDone(status: map<string, string>, id: string)
    requires id in status && status[id] != Completing
    ensures RoundDecision(status) != Done
  {
  }

  /** A pending job forces the long wait whatever the other jobs report. */
  lemma PendingForcesLongWait(status: map<string, string>, id: string)
    requires id in status && status[id] == Pending
    ensures RoundDecision(status) == LongWait
  {
  }

  /** Jobs that are all running, none pending, get the short wait. */
  lemma RunningGetsShortWait(status: map<string, string>)
    requires status != map[]
    requires forall id :: id in status ==> status[id] == Running
    ensures RoundDecision(status) == ShortWait
  {
    var id :| id in status;
    assert status[id] != Completing;
  }

  /** How the wait for a batch of jobs ends. */
  datatype PollOutcome = AllDone(round: nat) | Timeout

  /** Seconds slept over the rounds `rounds`: the delay before each read, then its back-off. */
  function SleptFor(rounds: seq<map<string, string>>): nat {
    if rounds == [] then 0
    else SleptFor(rounds[..|rounds| - 1]) + RoundDelay + Backoff(RoundDecision(rounds[|rounds| - 1]))
  }

  /**
   * check_job_completion over the status maps that successive rounds read:
   * it stops at the first round in which every job reports CG. The source
   * polls forever; here running out of rounds is a Timeout.
   */
  method WaitForJobs(rounds: seq<map<string, string>>) returns (outcome: PollOutcome, slept: nat)
    ensures outcome.AllDone? ==> outcome.round < |rounds| && AllCompleted(rounds[outcome.round])
    ensures outcome.AllDone? ==> forall j :: 0 <= j < outcome.round ==> !AllCompleted(rounds[j])
    ensures outcome.AllDone? ==> slept == SleptFor(rounds[..outcome.round + 1])
    ensures outcome.Timeout? ==> forall j :: 0 <= j < |rounds| ==> !AllCompleted(rounds[j])
    ensures outcome.Timeout? ==> slept == SleptFor(rounds)
  {
    slept := 0;
    var i := 0;
    while i < |rounds|
      invariant 0 <= i <= |rounds|
      invariant forall j :: 0 <= j < i ==> !AllCompleted(rounds[j])
      invariant slept == SleptFor(rounds[..i])
    {
      slept := slept + RoundDelay;
      var d := PollRound(rounds[i]);
      assert rounds[..i + 1][..i] == rounds[..i];
      if d == Done {
        return AllDone(i), slept;
      }
      slept := slept + Backoff(d);
      i := i + 1;
    }
    TakeAll(rounds);
    return Timeout, slept;
  }

  // ---------------------------------------------------------------------
  // Job ids from sbatch output

  const SubmittedPrefix := "Submitted batch job"

  /** The id a line of submission output reports: its last token, when the stripped line starts with the prefix. */
  function SubmittedId(line: string): Option<string> {
    var out := Strip(line);
    var fields := Tokens(out);
    // a line with the prefix always has tokens (SubmittedHasTokens)
    if StartsWith(out, SubmittedPrefix) && fields != [] then Some(fields[|fields| - 1])
    else None
  }

  lemma SubmittedHasTokens(out: string)
    requires StartsWith(out, SubmittedPrefix)
    ensures Tokens(out) != []
  {
    assert out[0] == out[..|SubmittedPrefix|][0] == 'S';
  }

  /** What one line adds to the harvested ids: its id, or nothing. */
  function IdsOf(line: string): seq<string> {
    match SubmittedId(line)
    case Some(id) => [id]
    case None => []
  }

  /** The ids the harvesting loop collects from `lines`, in submission order. */
  function Harvested(lines: seq<string>): seq<string> {
    if lines == [] then []
    else Harvested(lines[..|lines| - 1]) + IdsOf(lines[|lines| - 1])
  }

  lemma HarvestedSnoc(lines: seq<string>, line: string)
    ensures Harvested(lines + [line]) == Harvested(lines) + IdsOf(line)
  {
    var all := lines + [line];
    assert all[..|all| - 1] == lines;
    assert all[|all| - 1] == line;
  }

  lemma HarvestedStep(lines: seq<string>, i: nat)
    requires i < |lines|
    ensures Harvested(lines[..i + 1]) == Harvested(lines[..i]) + IdsOf(lines[i])
  {
    assert lines[..i + 1] == lines[..i] + [lines[i]];
    HarvestedSnoc(lines[..i], lines[i]);
  }

  /** The loop reading `bash sbatch_*.sh` output line by line and keeping the reported ids. */
  method HarvestJobIds(lines: seq<string>) returns (jobIds: seq<string>)
    ensures jobIds == Harvested(lines)
  {
    jobIds := [];
    var i := 0;
    while i < |lines|
      invariant 0 <= i <= |lines|
      invariant jobIds == Harvested(lines[..i])
    {
      // SubmittedId strips the line and takes its last field when it starts with the sbatch message
      match SubmittedId(lines[i]) {
        case Some(id) =>
          HarvestedStep(lines, i);
          jobIds := jobIds + [id];
        case None =>
          HarvestedStep(lines, i);
          AppendNothing(jobIds);
      }
      i := i + 1;
    }
    TakeAll(lines);
  }

  /** Harvesting two outputs one after the other keeps both in order. */
  lemma {:induction false} HarvestedAppend(a: seq<string>, b: seq<string>)
    ensures Harvested(a + b) == Harvested(a) + Harvested(b)
    decreases |b|
  {
    if b == [] {
      assert a + b == a;
    } else {
      var init := b[..|b| - 1];
      var last := b[|b| - 1];
      SnocSlice(b);
      AppendAssoc(a, init, [last]);
      HarvestedSnoc(a + init, last);
      HarvestedSnoc(init, last);
      HarvestedAppend(a, init);
      AppendAssoc(Harvested(a), Harvested(init), IdsOf(last));
    }
  }

  /** The line sbatch prints for a submitted job. */
  function SbatchLine(id: string): string {
    SubmittedPrefix + " " + id + "\n"
  }

  /** An id of one or more non-space characters printed by sbatch is read back. */
  lemma SubmittedIdOfSbatch(id: string)
    requires id != [] && AllIn(NonSpace, id)
    ensures SubmittedId(SbatchLine(id)) == Some(id)
    ensures SingleJobId(SbatchLine(id)) == Some(id)
  {
    var x := SubmittedPrefix + " " + id;
    SbatchStrip(id);
    assert x[..|SubmittedPrefix|] == SubmittedPrefix;
    SbatchTokens(id);
  }

  lemma SbatchStrip(id: string)
    requires id != [] && AllIn(NonSpace, id)
    ensures Strip(SbatchLine(id)) == SubmittedPrefix + " " + id
  {
    var x := SubmittedPrefix + " " + id;
    assert SbatchLine(id) == x + "\n";
    assert x[|x| - 1] == id[|id| - 1];
    assert x[0] == 'S';
    StripTrailing(x, "\n");
  }

  lemma SbatchTokens(id: string)
    requires id != [] && AllIn(NonSpace, id)
    ensures Tokens(SubmittedPrefix + " " + id) == ["Submitted", "batch", "job", id]
  {
    var ws := ["Submitted", "batch", "job", id];
    assert Join(ws[3..], " ") == id;
    assert Join(ws[2..], " ") == "job" + " " + id;
    assert Join(ws[1..], " ") == "batch" + " " + ("job" + " " + id);
    assert Join(ws, " ") == "Submitted" + " " + ("batch" + " " + ("job" + " " + id));
    assert Join(ws, " ") == SubmittedPrefix + " " + id;
    TokensOfJoin(ws);
  }

  /** What sbatch prints when the jobs `ids` are submitted one after another. */
  function SbatchOutput(ids: seq<string>): (lines: seq<string>)
    ensures |lines| == |ids|
    ensures forall i :: 0 <= i < |ids| ==> lines[i] == SbatchLine(ids[i])
  {
    if ids == [] then [] else SbatchOutput(ids[..|ids| - 1]) + [SbatchLine(ids[|ids| - 1])]
  }

  /** Harvesting sbatch output for ids of non-space characters yields those ids in order. */
  lemma {:induction false} HarvestedOfSbatch(ids: seq<string>)
    requires forall i :: 0 <= i < |ids| ==> ids[i] != [] && AllIn(NonSpace, ids[i])
    ensures Harvested(SbatchOutput(ids)) == ids
  {
    if ids != [] {
      var init := ids[..|ids| - 1];
      var last := ids[|ids| - 1];
      HarvestedOfSbatch(init);
      SubmittedIdOfSbatch(last);
      HarvestedSnoc(SbatchOutput(init), SbatchLine(last));
      SnocSlice(ids);
    }
  }

  /** `output.strip().split()[-1]` for the single structure job; None where the indexing raises. */
  function SingleJobId(output: string): (r: Option<string>)
    ensures r.None? <==> AllSpace(Strip(output))
  {
    var fields := Tokens(Strip(output));
    if fields == [] then None else Some(fields[|fields| - 1])
  }
}
