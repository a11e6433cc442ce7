// Switching an indexer's uses or a download client on and off (src/lib/arr-system-data.ts, lines 268-406).
module ProviderSave {
  import opened Options

  datatype Kind = Indexer | DownloadClient

  datatype Flag = Enable | EnableRss | EnableAutomaticSearch | EnableInteractiveSearch

  // What the model keeps of a provider resource; `None` when the arr does not say.
  datatype Provider = Provider(flags: map<Flag, bool>, supportsRss: Option<bool>, supportsSearch: Option<bool>)

  type Change = map<Flag, bool>

  datatype Use = Rss | Search

  // The arr's own resource, each switched flag as asked and everything else as it was.
  function WithEnabled(raw: Provider, change: Change): (body: Provider)
    ensures body.supportsRss == raw.supportsRss && body.supportsSearch == raw.supportsSearch
    ensures body.flags.Keys == raw.flags.Keys + change.Keys
    ensures forall flag :: flag in body.flags ==>
      body.flags[flag] == if flag in change then change[flag] else raw.flags[flag]
  {
    raw.(flags := raw.flags + change)
  }

  // A use the change switches on that the indexer says it cannot do; RSS is named first.
  function Unsupported(raw: Provider, change: Change): (use: Option<Use>)
    ensures use == Some(Rss) <==> EnableRss in change && change[EnableRss] && raw.supportsRss == Some(false)
    ensures use.Some? <==>
      || (raw.supportsRss == Some(false) && EnableRss in change && change[EnableRss])
      || (raw.supportsSearch == Some(false)
          && ((EnableAutomaticSearch in change && change[EnableAutomaticSearch])
              || (EnableInteractiveSearch in change && change[EnableInteractiveSearch])))
  {
    if On(change, EnableRss) && raw.supportsRss == Some(false) then Some(Rss)
    else if raw.supportsSearch == Some(false)
      && (On(change, EnableAutomaticSearch) || On(change, EnableInteractiveSearch)) then Some(Search)
    else None
  }

  predicate On(change: Change, flag: Flag) { flag in change && change[flag] }

  predicate OnlyOff(change: Change) { forall flag :: flag in change ==> !change[flag] }

  // The arr's copy reads as if the change had been made to it already.
  predicate Applied(now: Provider, change: Change)
    ensures Applied(now, change) <==> WithEnabled(now, change) == now
  {
    AppliedIsSettled(now, change);
    forall flag :: flag in change ==> flag in now.flags && now.flags[flag] == change[flag]
  }

  lemma AppliedIsSettled(now: Provider, change: Change)
    ensures (forall flag :: flag in change ==> flag in now.flags && now.flags[flag] == change[flag]) <==>
      now.flags + change == now.flags
  {
    var more := now.flags + change;
    if more == now.flags {
      forall flag | flag in change
        ensures flag in now.flags && now.flags[flag] == change[flag]
      {
        assert flag in more && more[flag] == change[flag];
      }
    }
  }

  // ── reading back after a save that timed out ───────────────────────────────

  const SETTLE_READS := 6

  // The read whose copy is answered: none before it carries the change, and it does, or
  // no read after it is made, or the next one fails.
  ghost predicate KeptRead(answers: nat -> Option<Provider>, change: Change, wait: bool, k: nat) {
    && answers(k).Some? && k <= (if wait then 6 else 0)
    && (forall j :: 0 <= j < k ==> answers(j).Some? && !Applied(answers(j).value, change))
    && (k == (if wait then 6 else 0) || Applied(answers(k).value, change) || answers(k + 1).None?)
  }

  // Reads until the arr's copy carries the change, a later read fails, or the reads run
  // out; `answers(k)` is what the k-th read gets.
  method ReadBackAfterTimeout(answers: nat -> Option<Provider>, change: Change, wait: bool)
    returns (now: Option<Provider>, asked: nat)
    ensures 1 <= asked <= 7 && (!wait ==> asked == 1)
    ensures now.Some? <==> answers(0).Some?
    ensures forall k :: 0 <= k < asked - 1 ==> answers(k).Some? && !Applied(answers(k).value, change)
    ensures now.Some? ==>
      now == answers(asked - 1) || (answers(asked - 1).None? && asked > 1 && now == answers(asked - 2))
    ensures now.Some? && wait && asked < 7 ==> answers(asked - 1).None? || Applied(now.value, change)
    ensures now.Some? ==> exists k :: KeptRead(answers, change, wait, k) && now == answers(k)
  {
    now, asked := answers(0), 1;
    if now.None? { return; }
    if !wait {
      assert KeptRead(answers, change, wait, 0);
      return;
    }
    while asked < 1 + SETTLE_READS && !Applied(now.value, change)
      invariant 1 <= asked <= 1 + SETTLE_READS && now.Some? && now == answers(asked - 1)
      invariant forall k :: 0 <= k < asked - 1 ==> answers(k).Some? && !Applied(answers(k).value, change)
    {
      var again := answers(asked);
      asked := asked + 1;
      if again.None? {
        assert KeptRead(answers, change, wait, asked - 2);
        return;
      }
      now := again;
    }
    assert KeptRead(answers, change, wait, asked - 1);
  }

  // ── one save ───────────────────────────────────────────────────────────────

  datatype Reply = Fine(provider: Provider) | Refused(warningsOnly: bool) | TimedOut | Broken

  datatype Request = Test(body: Provider) | Put(body: Provider, force: bool)

  datatype Outcome =
    | UseUnsupported(use: Use)
    | Rejected
    | Warnings
    | Failed
    | Saved(provider: Provider, applied: bool, timedOut: bool)

  // The test that "switch on anyway" re-runs let the save through.
  predicate TestAllows(test: Reply) { test.Fine? || (test.Refused? && test.warningsOnly) }

  method SaveProvider(kind: Kind, raw: Provider, change: Change, acceptWarnings: bool, wait: bool,
                      test: Reply, put: Reply, answers: nat -> Option<Provider>)
    returns (outcome: Outcome, sent: seq<Request>)
    // Nothing is sent that would switch on a use the indexer cannot do.
    ensures kind.Indexer? && Unsupported(raw, change).Some? <==> outcome.UseUnsupported?
    ensures outcome.UseUnsupported? ==> sent == [] && outcome.use == Unsupported(raw, change).value
    // What is sent is the arr's own resource with only the switched flags changed.
    ensures forall k :: 0 <= k < |sent| ==> sent[k].body == WithEnabled(raw, change)
    // The arr's test is skipped only for a change that only switches off, or after the
    // very body has been tested here without an error.
    ensures forall k :: 0 <= k < |sent| && sent[k].Put? && sent[k].force ==>
      OnlyOff(change) || (acceptWarnings && k == 1 && sent[0] == Test(sent[1].body) && TestAllows(test))
    ensures OnlyOff(change) && !outcome.UseUnsupported? ==> sent == [Put(WithEnabled(raw, change), true)]
    // A test with an error never becomes a save.
    ensures !OnlyOff(change) && acceptWarnings && !TestAllows(test) ==> forall k :: 0 <= k < |sent| ==> sent[k].Test?
    ensures |sent| <= 2 && forall k :: 0 <= k < |sent| && sent[k].Put? ==> k == |sent| - 1
    // A save goes out unless the use is refused here or its own test stands in the way;
    // it waits for the arr's test just when nothing lets that be skipped.
    ensures !outcome.UseUnsupported? && (OnlyOff(change) || !acceptWarnings || test.Fine? || test == Refused(true)) <==>
      sent != [] && sent[|sent| - 1].Put?
    ensures sent != [] && sent[|sent| - 1].Put? ==> (sent[|sent| - 1].force <==> OnlyOff(change) || acceptWarnings)
    ensures !OnlyOff(change) && !outcome.UseUnsupported? && acceptWarnings ==>
      sent != [] && sent[0] == Test(WithEnabled(raw, change))
    // What the arr did with the save is what is answered.
    ensures sent != [] && sent[|sent| - 1].Put? && put.Fine? ==> outcome == Saved(put.provider, true, false)
    ensures sent != [] && sent[|sent| - 1].Put? && put.TimedOut? && !sent[|sent| - 1].force ==>
      (answers(0).Some? <==> outcome.Saved? && outcome.timedOut) && (outcome.Saved? || outcome.Failed?)
    ensures outcome.Rejected? <==>
      || (!outcome.UseUnsupported? && !OnlyOff(change) && acceptWarnings && test == Refused(false))
      || (sent != [] && sent[|sent| - 1].Put? && put.Refused? && (sent[|sent| - 1].force || !put.warningsOnly))
    ensures outcome.Failed? <==>
      || (!outcome.UseUnsupported? && !OnlyOff(change) && acceptWarnings && (test.TimedOut? || test.Broken?))
      || (sent != [] && sent[|sent| - 1].Put? && put.Broken?)
      || (sent != [] && sent[|sent| - 1].Put? && put.TimedOut? && (sent[|sent| - 1].force || answers(0).None?))
    // "Saved" is the arr's word, or its own copy read back; only a testing save waits.
    ensures outcome.Saved? ==> sent != [] && sent[|sent| - 1].Put?
    ensures outcome.Saved? && !outcome.timedOut ==> put == Fine(outcome.provider) && outcome.applied
    ensures outcome.Saved? && outcome.timedOut ==> put.TimedOut? && !sent[|sent| - 1].force
    ensures outcome.Saved? && outcome.timedOut ==> outcome.applied == Applied(outcome.provider, change)
    ensures outcome.Saved? && outcome.timedOut ==>
      exists k :: KeptRead(answers, change, wait, k) && answers(k) == Some(outcome.provider)
    // Warnings are offered to be accepted only where no test has accepted them yet.
    ensures outcome.Warnings? ==>
      sent == [Put(WithEnabled(raw, change), false)] && put == Refused(true) && !acceptWarnings
    ensures !OnlyOff(change) && !outcome.UseUnsupported? && !acceptWarnings && put == Refused(true) ==>
      outcome.Warnings?
  {
    sent := [];
    var unsupported := if kind.Indexer? then Unsupported(raw, change) else None;
    if unsupported.Some? { return UseUnsupported(unsupported.value), sent; }
    var body := WithEnabled(raw, change);
    var onlyOff := OnlyOff(change);
    var forceSave := onlyOff;
    if !onlyOff && acceptWarnings {
      sent := [Test(body)];
      if test.TimedOut? || test.Broken? { return Failed, sent; }
      if test.Refused? && !test.warningsOnly { return Rejected, sent; }
      forceSave := true;
    }
    sent := sent + [Put(body, forceSave)];
    match put {
      case Fine(saved) => outcome := Saved(saved, true, false);
      case Refused(warningsOnly) => outcome := if !forceSave && warningsOnly then Warnings else Rejected;
      case Broken => outcome := Failed;
      case TimedOut =>
        outcome := Failed;
        if !forceSave {
          var now, _ := ReadBackAfterTimeout(answers, change, wait);
          if now.Some? { outcome := Saved(now.value, Applied(now.value, change), true); }
        }
    }
  }
}
