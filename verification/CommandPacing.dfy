// Following a command Radarr/Sonarr runs (src/lib/arr-command-status.ts): what one
// poll answers, the give-up rule, the chunked read, and the summary line.
module CommandPacing {
  import opened Options

  datatype Status = Queued | Started | Completed | Failed | Aborted | Cancelled | Orphaned | Unknown | Gone

  predicate IsTerminal(s: Status) { s != Queued && s != Started }

  datatype CommandState = CommandState(id: int, status: Status, message: Option<string>)

  predicate AllTerminal(states: seq<CommandState>) {
    forall i :: 0 <= i < |states| ==> IsTerminal(states[i].status)
  }

  datatype WatchRead =
    | Ok(states: seq<CommandState>)
    | Skipped
    | RateLimited
    | Refused(error: string)
    | ReadFailed(error: string)

  const WATCH_POLL_MS := 2_000
  const WATCH_MAX_POLLS := 300
  const WATCH_MAX_FAILED_READS := 5
  const WATCH_RATE_LIMITED_POLLS := 5

  datatype Counters = Counters(polls: nat, failures: nat, overrun: nat)

  datatype HowStopped = Timeout | GaveUp

  datatype Step =
    | Done(states: seq<CommandState>)
    | Stop(stopped: HowStopped, error: string)
    | Poll(delayMs: nat, newest: Option<seq<CommandState>>)

  function WatchStep(read: WatchRead, c: Counters): (Step, Counters) {
    var polls := c.polls + (if read.RateLimited? then WATCH_RATE_LIMITED_POLLS else 1);
    var pastCap := polls >= WATCH_MAX_POLLS;
    var overrun := c.overrun + (if pastCap && !read.Ok? && !read.Skipped? then 1 else 0);
    var failures := if read.Ok? then 0 else if read.ReadFailed? then c.failures + 1 else c.failures;
    var counters := Counters(polls, failures, overrun);
    if read.Ok? && AllTerminal(read.states) then (Done(read.states), counters)
    else if read.Refused? then (Stop(GaveUp, read.error), counters)
    else if read.ReadFailed? && failures >= WATCH_MAX_FAILED_READS then (Stop(GaveUp, read.error), counters)
    else if pastCap && (read.Ok? || (!read.Skipped? && overrun >= WATCH_MAX_FAILED_READS))
      then (Stop(Timeout, ""), counters)
    else
      var delayMs := if read.RateLimited? then WATCH_RATE_LIMITED_POLLS * WATCH_POLL_MS else WATCH_POLL_MS;
      (Poll(delayMs, if read.Ok? then Some(read.states) else None), counters)
  }

  // ── a whole watch, read by read ────────────────────────────────────────────

  // The answers a watch has had, in order.
  datatype Answers = NoAnswers | After(before: Answers, read: WatchRead)

  // The counters while the watch is still polling after those answers; None once it has ended.
  function Follow(answers: Answers): Option<Counters> {
    match answers
    case NoAnswers => Some(Counters(0, 0, 0))
    case After(before, read) =>
      match Follow(before)
      case None => None
      case Some(c) =>
        var (step, next) := WatchStep(read, c);
        if step.Poll? then Some(next) else None
  }

  // What the counters stand for, said without counters.
  function Weight(answers: Answers): nat {
    if answers.NoAnswers? then 0
    else Weight(answers.before) + (if answers.read.RateLimited? then WATCH_RATE_LIMITED_POLLS else 1)
  }

  function FailuresSinceAnswer(answers: Answers): nat {
    if answers.NoAnswers? || answers.read.Ok? then 0
    else FailuresSinceAnswer(answers.before) + (if answers.read.ReadFailed? then 1 else 0)
  }

  predicate Answerless(read: WatchRead) { !read.Ok? && !read.Skipped? }

  function AnswerlessPastCap(answers: Answers): nat {
    if answers.NoAnswers? then 0
    else
      var pastCap := Weight(answers) >= WATCH_MAX_POLLS && Answerless(answers.read);
      AnswerlessPastCap(answers.before) + (if pastCap then 1 else 0)
  }

  function VisiblePolls(answers: Answers): nat {
    if answers.NoAnswers? then 0 else VisiblePolls(answers.before) + (if answers.read.Skipped? then 0 else 1)
  }

  lemma {:induction false} CountersMean(answers: Answers)
    requires Follow(answers).Some?
    ensures Follow(answers).value == Counters(Weight(answers), FailuresSinceAnswer(answers), AnswerlessPastCap(answers))
  {
    if answers.After? {
      CountersMean(answers.before);
    }
  }

  // While a watch still polls, every visible poll is paid for: by a poll under the cap,
  // or by one of at most four answerless reads past it.
  predicate Paid(c: Counters, visible: nat) {
    && c.overrun < WATCH_MAX_FAILED_READS && c.failures < WATCH_MAX_FAILED_READS
    && if c.polls < WATCH_MAX_POLLS then visible <= c.polls && c.overrun == 0
       else visible < WATCH_MAX_POLLS + c.overrun
  }

  lemma StepStaysPaid(read: WatchRead, c: Counters, visible: nat)
    requires Paid(c, visible) && WatchStep(read, c).0.Poll?
    ensures Paid(WatchStep(read, c).1, visible + (if read.Skipped? then 0 else 1))
  {
  }

  lemma {:induction false} StillPollingIsPaid(answers: Answers)
    requires Follow(answers).Some?
    ensures Paid(Follow(answers).value, VisiblePolls(answers))
  {
    if answers.After? {
      StillPollingIsPaid(answers.before);
      StepStaysPaid(answers.read, Follow(answers.before).value, VisiblePolls(answers.before));
    }
  }

  const MOST_VISIBLE_POLLS := WATCH_MAX_POLLS + WATCH_MAX_FAILED_READS - 1

  // Whatever the reads answer, a watch has ended by its 304th visible poll.
  lemma EveryWatchEnds(answers: Answers)
    requires VisiblePolls(answers) >= MOST_VISIBLE_POLLS
    ensures Follow(answers).None?
  {
    if Follow(answers).Some? {
      StillPollingIsPaid(answers);
    }
  }

  function Repeat(answers: Answers, read: WatchRead, n: nat): Answers {
    if n == 0 then answers else After(Repeat(answers, read, n - 1), read)
  }

  lemma {:induction false} QuietPolls(running: WatchRead, n: nat)
    requires running.Ok? && !AllTerminal(running.states) && n < WATCH_MAX_POLLS
    ensures Follow(Repeat(NoAnswers, running, n)) == Some(Counters(n, 0, 0))
    ensures VisiblePolls(Repeat(NoAnswers, running, n)) == n
  {
    if n > 0 {
      QuietPolls(running, n - 1);
    }
  }

  // The bound is met: 303 visible polls can leave a watch polling.
  lemma TheBoundIsTight(running: WatchRead) returns (answers: Answers)
    requires running.Ok? && !AllTerminal(running.states)
    ensures VisiblePolls(answers) == MOST_VISIBLE_POLLS - 1 && Follow(answers).Some?
  {
    QuietPolls(running, WATCH_MAX_POLLS - 1);
    var r0 := Repeat(NoAnswers, running, WATCH_MAX_POLLS - 1);
    var r1 := After(r0, RateLimited);
    assert Follow(r1) == Some(Counters(304, 0, 1)) && VisiblePolls(r1) == 300;
    var r2 := After(r1, RateLimited);
    assert Follow(r2) == Some(Counters(309, 0, 2)) && VisiblePolls(r2) == 301;
    var r3 := After(r2, RateLimited);
    assert Follow(r3) == Some(Counters(314, 0, 3)) && VisiblePolls(r3) == 302;
    answers := After(r3, RateLimited);
    assert Follow(answers) == Some(Counters(319, 0, 4));
  }

  // Hidden polls alone never end a watch, from any point it has reached: they are the
  // one way to wait for ever.
  lemma {:induction false} HiddenPollsNeverEnd(answers: Answers, n: nat)
    requires Follow(answers).Some?
    ensures Follow(Repeat(answers, Skipped, n)).Some?
    ensures VisiblePolls(Repeat(answers, Skipped, n)) == VisiblePolls(answers)
  {
    if n > 0 {
      HiddenPollsNeverEnd(answers, n - 1);
    }
  }

  // How the next read ends a watch, from the reads alone: done on an answer with every
  // command over; an error on a refusal or the fifth failure since an answer; a timeout
  // only past the cap, on any other answer or on the fifth answerless read past it.
  lemma HowAWatchEnds(before: Answers, read: WatchRead)
    requires Follow(before).Some?
    ensures var answers := After(before, read);
      var step := WatchStep(read, Follow(before).value).0;
      && (step.Done? <==> read.Ok? && AllTerminal(read.states))
      && (step.Stop? && step.stopped == GaveUp <==>
            read.Refused? || (read.ReadFailed? && FailuresSinceAnswer(answers) == WATCH_MAX_FAILED_READS))
      && (step.Stop? && step.stopped == Timeout <==>
            && Weight(answers) >= WATCH_MAX_POLLS && !step.Done? && !(step.Stop? && step.stopped == GaveUp)
            && (read.Ok? || (Answerless(read) && AnswerlessPastCap(answers) == WATCH_MAX_FAILED_READS)))
      && (read.Skipped? ==> step.Poll?)
      // What goes with it: every state on the last answer; the arr's own words; and, on a
      // watch that goes on, the newest answer and ten seconds' wait, not two, where the
      // arr is being asked too often.
      && (step.Done? ==> step.states == read.states)
      && (step.Stop? ==>
         step.error == if read.Refused? || (read.ReadFailed? && step.stopped == GaveUp) then read.error else "")
      && (step.Poll? ==>
            && step.delayMs == (if read.RateLimited? then 10_000 else 2_000)
            && step.newest == if read.Ok? then Some(read.states) else None)
  {
    CountersMean(before);
    StillPollingIsPaid(before);
  }

  // ── reading many ids ───────────────────────────────────────────────────────

  function Chunks(ids: seq<int>, step: nat): (chunks: seq<seq<int>>)
    requires step > 0
    ensures forall i :: 0 <= i < |chunks| ==> 0 < |chunks[i]| <= step
    ensures forall i :: 0 <= i < |chunks| - 1 ==> |chunks[i]| == step
    decreases |ids|
  {
    if ids == [] then []
    else if |ids| <= step then [ids]
    else [ids[..step]] + Chunks(ids[step..], step)
  }

  function StatesOf(answers: seq<WatchRead>): seq<CommandState>
    requires forall i :: 0 <= i < |answers| ==> answers[i].Ok?
  {
    if answers == [] then [] else StatesOf(answers[..|answers| - 1]) + answers[|answers| - 1].states
  }

  lemma FirstChunk(ids: seq<int>, step: nat)
    requires step > 0 && ids != []
    ensures var end := if |ids| <= step then |ids| else step;
      Chunks(ids, step) == [ids[..end]] + Chunks(ids[end..], step)
  {
    if |ids| <= step {
      assert ids[..|ids|] == ids && ids[|ids|..] == [];
    }
  }

  // What the requests answered: `readChunk(n, chunk)` is the n-th one's answer.
  function Answered(readChunk: (nat, seq<int>) -> WatchRead, asked: seq<seq<int>>): (answers: seq<WatchRead>)
    ensures |answers| == |asked| && forall n :: 0 <= n < |asked| ==> answers[n] == readChunk(n, asked[n])
  {
    seq(|asked|, n requires 0 <= n < |asked| => readChunk(n, asked[n]))
  }

  predicate AllOk(answers: seq<WatchRead>) { forall i :: 0 <= i < |answers| ==> answers[i].Ok? }

  lemma OneMoreAnswer(readChunk: (nat, seq<int>) -> WatchRead, asked: seq<seq<int>>, chunk: seq<int>)
    requires AllOk(Answered(readChunk, asked))
    ensures (asked + [chunk])[..|asked|] == asked
    ensures readChunk(|asked|, chunk).Ok? ==>
      && AllOk(Answered(readChunk, asked + [chunk]))
      && StatesOf(Answered(readChunk, asked + [chunk])) == StatesOf(Answered(readChunk, asked)) + readChunk(|asked|,
         chunk).states
  {
    assert Answered(readChunk, asked + [chunk])[..|asked|] == Answered(readChunk, asked);
  }

  lemma ChunkTaken(chunks: seq<seq<int>>, asked: seq<seq<int>>, rest: seq<int>, step: nat, end: nat)
    requires step > 0 && rest != [] && end == if |rest| <= step then |rest| else step
    requires asked + Chunks(rest, step) == chunks
    ensures asked + [rest[..end]] + Chunks(rest[end..], step) == chunks
    ensures asked + [rest[..end]] <= chunks
  {
    FirstChunk(rest, step);
    Regroup(asked, [rest[..end]], Chunks(rest[end..], step));
  }

  lemma Regroup(a: seq<seq<int>>, b: seq<seq<int>>, c: seq<seq<int>>)
    ensures (a + b) + c == a + (b + c)
    ensures a + b <= a + (b + c)
  {
  }

  // `asked` is every chunk sent: all of them, or up to the first that brought no answer.
  method ReadCommandsInChunks(ids: seq<int>, readChunk: (nat, seq<int>) -> WatchRead, size: int)
    returns (read: WatchRead, asked: seq<seq<int>>)
    ensures asked <= Chunks(ids, if size < 1 then 1 else size)
    ensures read.Ok? ==>
      && asked == Chunks(ids, if size < 1 then 1 else size)
      && AllOk(Answered(readChunk, asked)) && read.states == StatesOf(Answered(readChunk, asked))
    ensures !read.Ok? ==>
      && asked != [] && AllOk(Answered(readChunk, asked[..|asked| - 1]))
      && read == readChunk(|asked| - 1, asked[|asked| - 1])
  {
    var step := if size < 1 then 1 else size;
    var states: seq<CommandState> := [];
    asked := [];
    var rest := ids;
    while rest != []
      invariant asked + Chunks(rest, step) == Chunks(ids, step)
      invariant AllOk(Answered(readChunk, asked)) && states == StatesOf(Answered(readChunk, asked))
      decreases |rest|
    {
      var end := if |rest| <= step then |rest| else step;
      var chunk := rest[..end];
      var answer := readChunk(|asked|, chunk);
      ChunkTaken(Chunks(ids, step), asked, rest, step, end);
      OneMoreAnswer(readChunk, asked, chunk);
      asked := asked + [chunk];
      rest := rest[end..];
      if !answer.Ok? {
        return answer, asked;
      }
      states := states + answer.states;
    }
    read := Ok(states);
  }

  function MapIds(ids: seq<int>, world: int -> CommandState): (states: seq<CommandState>)
    ensures |states| == |ids| && forall i :: 0 <= i < |ids| ==> states[i] == world(ids[i])
  {
    seq(|ids|, i requires 0 <= i < |ids| => world(ids[i]))
  }

  function AnswersOf(chunks: seq<seq<int>>, world: int -> CommandState): (answers: seq<WatchRead>)
    ensures |answers| == |chunks| && forall i :: 0 <= i < |chunks| ==> answers[i] == Ok(MapIds(chunks[i], world))
  {
    seq(|chunks|, i requires 0 <= i < |chunks| => Ok(MapIds(chunks[i], world)))
  }

  lemma {:induction false} StatesOfConcat(a: seq<WatchRead>, b: seq<WatchRead>)
    requires forall i :: 0 <= i < |a| ==> a[i].Ok?
    requires forall i :: 0 <= i < |b| ==> b[i].Ok?
    ensures StatesOf(a + b) == StatesOf(a) + StatesOf(b)
    decreases |b|
  {
    if b == [] {
      assert a + b == a;
    } else {
      assert (a + b)[..|a + b| - 1] == a + b[..|b| - 1];
      StatesOfConcat(a, b[..|b| - 1]);
    }
  }

  lemma MapIdsSplits(ids: seq<int>, end: nat, world: int -> CommandState)
    requires end <= |ids|
    ensures MapIds(ids[..end], world) + MapIds(ids[end..], world) == MapIds(ids, world)
  {
  }

  lemma FirstAnswer(chunk: seq<int>, chunks: seq<seq<int>>, world: int -> CommandState)
    ensures StatesOf(AnswersOf([chunk] + chunks, world)) == MapIds(chunk, world) + StatesOf(AnswersOf(chunks, world))
  {
    var first := Ok(MapIds(chunk, world));
    assert AnswersOf([chunk] + chunks, world) == [first] + AnswersOf(chunks, world);
    StatesOfConcat([first], AnswersOf(chunks, world));
    OneAnswer(first);
  }

  lemma {:induction false} ChunksCover(ids: seq<int>, step: nat, world: int -> CommandState)
    requires step > 0
    ensures StatesOf(AnswersOf(Chunks(ids, step), world)) == MapIds(ids, world)
    decreases |ids|
  {
    if ids != [] {
      FirstChunk(ids, step);
      var end := if |ids| <= step then |ids| else step;
      FirstAnswer(ids[..end], Chunks(ids[end..], step), world);
      ChunksCover(ids[end..], step, world);
      MapIdsSplits(ids, end, world);
    }
  }

  lemma OneAnswer(answer: WatchRead)
    requires answer.Ok?
    ensures StatesOf([answer]) == answer.states
  {
    assert [answer][..0] == [];
  }

  // When every request answers for the ids it names, chunks of any size come to one
  // whole read.
  lemma ChunksMakeOneRead(ids: seq<int>, step: nat, readChunk: (nat, seq<int>) -> WatchRead, world: int -> CommandState)
    requires step > 0
    requires forall n, chunk :: readChunk(n, chunk) == Ok(MapIds(chunk, world))
    ensures AllOk(Answered(readChunk, Chunks(ids, step)))
    ensures StatesOf(Answered(readChunk, Chunks(ids, step))) == MapIds(ids, world)
    ensures readChunk(0, ids) == Ok(StatesOf(Answered(readChunk, Chunks(ids, step))))
  {
    assert Answered(readChunk, Chunks(ids, step)) == AnswersOf(Chunks(ids, step), world);
    ChunksCover(ids, step, world);
  }

  // ── the line ───────────────────────────────────────────────────────────────

  function Rank(s: Status): nat {
    match s
    case Failed => 7
    case Aborted => 6
    case Orphaned => 5
    case Cancelled => 4
    case Unknown => 3
    case Gone => 2
    case Completed => 1
    case Queued => 0
    case Started => 0
  }

  datatype Summary = Summary(done: bool, status: Status, message: Option<string>, finished: nat, total: nat)

  function Terminals(states: seq<CommandState>): (n: nat)
    ensures n <= |states| && (n == |states| <==> AllTerminal(states))
    ensures n == |OverAt(states)|
  {
    OneMoreOver(states);
    if states == [] then 0
    else
      var last := |states| - 1;
      Terminals(states[..last]) + (if IsTerminal(states[last].status) then 1 else 0)
  }

  // Where the commands stand that are over.
  ghost function OverAt(states: seq<CommandState>): set<int> {
    set i | 0 <= i < |states| && states[i].status != Queued && states[i].status != Started
  }

  lemma OneMoreOver(states: seq<CommandState>)
    ensures var last := |states| - 1;
      if states == [] then OverAt(states) == {}
      else |OverAt(states)| == |OverAt(states[..last])| + if IsTerminal(states[last].status) then 1 else 0
  {
    if states != [] {
      var last := |states| - 1;
      var rest := OverAt(states[..last]);
      assert OverAt(states) == if IsTerminal(states[last].status) then rest + {last} else rest;
    }
  }

  // The outcomes, the worst first.
  const WORST_FIRST: seq<Status> := [Failed, Aborted, Orphaned, Cancelled, Unknown, Gone, Completed]

  lemma RankIsPlace(s: Status)
    ensures IsTerminal(s) <==> s in WORST_FIRST
    ensures IsTerminal(s) ==> 1 <= Rank(s) <= |WORST_FIRST| && WORST_FIRST[|WORST_FIRST| - Rank(s)] == s
    ensures forall k :: 0 <= k < |WORST_FIRST| ==> Rank(WORST_FIRST[k]) == |WORST_FIRST| - k
  {
    assert !IsTerminal(s) ==> forall k :: 0 <= k < |WORST_FIRST| ==> WORST_FIRST[k] != s;
    if IsTerminal(s) { assert s == WORST_FIRST[|WORST_FIRST| - Rank(s)]; }
  }

  ghost predicate HasStatus(states: seq<CommandState>, s: Status) {
    exists i :: 0 <= i < |states| && states[i].status == s
  }

  // The first on that list that any of the commands has.
  ghost predicate Worst(states: seq<CommandState>, s: Status) { exists k :: WorstAt(states, s, k) }

  ghost predicate WorstAt(states: seq<CommandState>, s: Status, k: int) {
    && 0 <= k < |WORST_FIRST| && WORST_FIRST[k] == s && HasStatus(states, s)
    && forall j :: 0 <= j < k ==> !HasStatus(states, WORST_FIRST[j])
  }

  lemma HighestIsWorst(states: seq<CommandState>, s: Status)
    requires AllTerminal(states) && HasStatus(states, s)
    requires forall i :: 0 <= i < |states| ==> Rank(states[i].status) <= Rank(s)
    ensures Worst(states, s)
  {
    RankIsPlace(s);
    var k := |WORST_FIRST| - Rank(s);
    forall j | 0 <= j < k
      ensures !HasStatus(states, WORST_FIRST[j])
    {
      assert Rank(WORST_FIRST[j]) == |WORST_FIRST| - j;
    }
    assert WorstAt(states, s, k);
  }

  predicate AnyStarted(states: seq<CommandState>) {
    exists i :: 0 <= i < |states| && states[i].status == Started
  }

  predicate Speaks(s: CommandState) { s.message.Some? && s.message.value != "" }

  predicate SpeaksOf(s: CommandState, status: Status) { s.status == status && Speaks(s) }

  // The message is the first state's of that status that has one to show.
  ghost predicate FirstMessage(states: seq<CommandState>, status: Status, message: Option<string>) {
    match message
    case None => forall i :: 0 <= i < |states| ==> !SpeaksOf(states[i], status)
    case Some(_) =>
      exists i :: 0 <= i < |states| && SpeaksOf(states[i], status) && states[i].message == message
                  && forall j :: 0 <= j < i ==> !SpeaksOf(states[j], status)
  }

  method MessageOf(states: seq<CommandState>, status: Status) returns (message: Option<string>)
    ensures FirstMessage(states, status, message)
  {
    for i := 0 to |states|
      invariant forall j :: 0 <= j < i ==> !SpeaksOf(states[j], status)
    {
      if SpeaksOf(states[i], status) {
        return states[i].message;
      }
    }
    message := None;
  }

  // One line's worth of several commands: once all are over, the worst outcome; beside it
  // the first message among the states that decided the status shown.
  method SummarizeCommands(states: seq<CommandState>) returns (sum: Summary)
    ensures sum.total == |states| && sum.finished == Terminals(states) == |OverAt(states)|
    ensures sum.done <==> AllTerminal(states)
    ensures !sum.done ==> sum.status == if AnyStarted(states) then Started else Queued
    ensures sum.done && states == [] ==> sum.status == Unknown
    ensures sum.done && states != [] ==> Worst(states, sum.status)
    ensures FirstMessage(states, sum.status, sum.message)
  {
    var finished, started := 0, false;
    for i := 0 to |states|
      invariant finished == Terminals(states[..i])
      invariant started <==> exists j :: 0 <= j < i && states[j].status == Started
    {
      assert states[..i + 1][..i] == states[..i];
      if IsTerminal(states[i].status) {
        finished := finished + 1;
      }
      started := started || states[i].status == Started;
    }
    assert states[..|states|] == states;
    if finished < |states| {
      var running := if started then Started else Queued;
      var message := MessageOf(states, running);
      return Summary(false, running, message, finished, |states|);
    }
    if states == [] {
      return Summary(true, Unknown, None, finished, 0);
    }
    var worst := states[0].status;
    for i := 0 to |states|
      invariant exists j :: 0 <= j < |states| && states[j].status == worst
      invariant forall j :: 0 <= j < i ==> Rank(states[j].status) <= Rank(worst)
    {
      if Rank(states[i].status) > Rank(worst) {
        worst := states[i].status;
      }
    }
    HighestIsWorst(states, worst);
    var message := MessageOf(states, worst);
    sum := Summary(true, worst, message, finished, |states|);
  }
}
