// The store of last good answers (src/lib/arr-snapshot.ts, lines 38-42, 90-180 and 233-345).
module SnapshotStore {
  import opened Options

  type Key = string

  const MAX_BYTES := 32 * 1024 * 1024
  const MAX_ENTRY_BYTES := 4 * 1024 * 1024
  const MAX_AGE_MS := 24 * 60 * 60 * 1000

  datatype Entry = Entry(body: string, at: int, bytes: nat, viewedAt: int, url: Option<string>, locale: Option<string>)

  datatype Slot = Slot(key: Key, entry: Entry)

  datatype Meta = Meta(url: Option<string>, locale: Option<string>, viewed: bool)

  datatype Hit = Hit(body: string, at: int)

  function CharBytes(c: char): nat {
    if c as int < 0x80 then 1 else if c as int < 0x800 then 2 else if c as int < 0x1_0000 then 3 else 4
  }

  function Utf8Length(body: string): nat {
    if body == "" then 0 else Utf8Length(body[..|body| - 1]) + CharBytes(body[|body| - 1])
  }

  // The UTF-8 bytes of a character: its bits, six to a byte after the first.
  function Utf8(c: char): seq<int> {
    var n := c as int;
    if n < 0x80 then [n]
    else if n < 0x800 then [0xC0 + n / 0x40, 0x80 + n % 0x40]
    else if n < 0x1_0000 then [0xE0 + n / 0x40 / 0x40, 0x80 + n / 0x40 % 0x40, 0x80 + n % 0x40]
    else [0xF0 + n / 0x40 / 0x40 / 0x40, 0x80 + n / 0x40 / 0x40 % 0x40, 0x80 + n / 0x40 % 0x40, 0x80 + n % 0x40]
  }

  // The bits behind the marks of the first byte and of those that follow it.
  function Bits(b: seq<int>): int {
    if |b| == 1 then b[0]
    else if |b| == 2 then (b[0] - 0xC0) * 0x40 + (b[1] - 0x80)
    else if |b| == 3 then ((b[0] - 0xE0) * 0x40 + (b[1] - 0x80)) * 0x40 + (b[2] - 0x80)
    else if |b| == 4 then (((b[0] - 0xF0) * 0x40 + (b[1] - 0x80)) * 0x40 + (b[2] - 0x80)) * 0x40 + (b[3] - 0x80)
    else 0
  }

  // Each character takes as many bytes as it needs, and can be read back from them.
  lemma Utf8IsRead(c: char)
    ensures Bits(Utf8(c)) == c as int && |Utf8(c)| == CharBytes(c)
  {
  }

  function Encoded(body: string): seq<int> {
    if body == "" then [] else Encoded(body[..|body| - 1]) + Utf8(body[|body| - 1])
  }

  // What is measured of a body is its length in UTF-8.
  lemma {:induction false} MeasuredInUtf8(body: string)
    ensures Utf8Length(body) == |Encoded(body)|
  {
    if body != "" {
      MeasuredInUtf8(body[..|body| - 1]);
      Utf8IsRead(body[|body| - 1]);
    }
  }

  // The entries in insertion order, which is least recently used first.
  type Slots = seq<Slot>

  function IndexOf(slots: Slots, key: Key): (i: nat)
    ensures i <= |slots| && (i < |slots| ==> slots[i].key == key)
    ensures forall j :: 0 <= j < i ==> slots[j].key != key
  {
    if slots == [] || slots[0].key == key then 0 else IndexOf(slots[1..], key) + 1
  }

  predicate Has(slots: Slots, key: Key) { IndexOf(slots, key) < |slots| }

  function Without(slots: Slots, key: Key): Slots {
    var i := IndexOf(slots, key);
    if i < |slots| then slots[..i] + slots[i + 1..] else slots
  }

  function Total(slots: Slots): nat {
    if slots == [] then 0 else slots[0].entry.bytes + Total(slots[1..])
  }

  // Drop from the front until the rest fits.
  function Evict(slots: Slots): Slots {
    if Total(slots) <= MAX_BYTES then slots else Evict(slots[1..])
  }

  function Kept(slots: Slots, key: Key, body: string, now: int, meta: Meta): Entry {
    var i := IndexOf(slots, key);
    var known := i < |slots|;
    Entry(body, now, Utf8Length(body),
          if !meta.viewed && known then slots[i].entry.viewedAt else now,
          if meta.url.Some? then meta.url else if known then slots[i].entry.url else None,
          if meta.locale.Some? then meta.locale else if known then slots[i].entry.locale else None)
  }

  function Remembered(slots: Slots, key: Key, body: string, now: int, meta: Meta): Slots {
    if Utf8Length(body) > MAX_ENTRY_BYTES then Without(slots, key)
    else Evict(Without(slots, key) + [Slot(key, Kept(slots, key, body, now, meta))])
  }

  function ReadAnswer(slots: Slots, key: Key, now: int): Option<Hit> {
    var i := IndexOf(slots, key);
    if i < |slots| && now - slots[i].entry.at <= MAX_AGE_MS then Some(Hit(slots[i].entry.body, slots[i].entry.at))
      else None
  }

  // A hit moves to the back; an entry found too old goes.
  function AfterRead(slots: Slots, key: Key, now: int): Slots {
    var i := IndexOf(slots, key);
    if i < |slots| && now - slots[i].entry.at <= MAX_AGE_MS then
      Without(slots, key) + [Slot(key, slots[i].entry.(viewedAt := now))]
    else Without(slots, key)
  }

  // ── the store itself ───────────────────────────────────────────────────────

  ghost predicate Distinct(slots: Slots) { forall i, j :: 0 <= i < j < |slots| ==> slots[i].key != slots[j].key }

  ghost predicate WellKept(slots: Slots) {
    Distinct(slots) && Sized(slots) && Total(slots) <= MAX_BYTES
  }

  ghost predicate Sized(slots: Slots) {
    forall slot :: slot in slots ==> slot.entry.bytes == Utf8Length(slot.entry.body) <= MAX_ENTRY_BYTES
  }

  class Store {
    var entries: Slots
    var bytes: int

    ghost predicate Valid()
      reads this
    {
      WellKept(entries) && bytes == Total(entries)
    }

    constructor ()
      ensures Valid() && entries == []
    {
      entries, bytes := [], 0;
    }

    method Drop(key: Key)
      modifies this
      ensures entries == Without(old(entries), key)
      ensures bytes == old(bytes) - Total(old(entries)) + Total(entries)
    {
      var i := IndexOf(entries, key);
      if i < |entries| {
        TotalWithout(entries, key);
        bytes := bytes - entries[i].entry.bytes;
        entries := entries[..i] + entries[i + 1..];
      }
    }

    method RememberSnapshot(key: Key, body: string, now: int, meta: Meta)
      requires Valid()
      modifies this
      ensures Valid() && entries == Remembered(old(entries), key, body, now, meta)
      ensures IsRemembered(old(entries), key, body, now, meta, entries)
    {
      RememberMeans(entries, key, body, now, meta);
      var size := Utf8Length(body);
      var i := IndexOf(entries, key);
      var kept := Kept(entries, key, body, now, meta);
      RememberedIsWellKept(entries, key, body, now, meta);
      if size <= MAX_ENTRY_BYTES { Restored(entries, Slot(key, kept)); }
      Drop(key);
      if size > MAX_ENTRY_BYTES { return; }
      entries := entries + [Slot(key, kept)];
      bytes := bytes + size;
      EvictOldest();
    }

    method EvictOldest()
      requires Distinct(entries) && bytes == Total(entries)
      modifies this
      ensures entries == Evict(old(entries)) && bytes == Total(entries)
    {
      while bytes > MAX_BYTES
        invariant bytes == Total(entries) && Evict(entries) == Evict(old(entries)) && Distinct(entries)
        decreases |entries|
      {
        FrontGoes(entries);
        Drop(entries[0].key);
      }
    }

    method ReadSnapshot(key: Key, now: int) returns (hit: Option<Hit>)
      requires Valid()
      modifies this
      ensures Valid() && entries == AfterRead(old(entries), key, now) && hit == ReadAnswer(old(entries), key, now)
      ensures IsRead(old(entries), key, now, hit, entries)
    {
      ReadMeans(entries, key, now);
      var i := IndexOf(entries, key);
      if i == |entries| { return None; }
      var e := entries[i].entry;
      if now - e.at > MAX_AGE_MS {
        Drop(key);
        return None;
      }
      entries := entries[..i] + entries[i + 1..] + [Slot(key, e.(viewedAt := now))];
      hit := Some(Hit(e.body, e.at));
    }

    method ClearArrSnapshots()
      modifies this
      ensures Valid() && entries == []
    {
      entries, bytes := [], 0;
    }
  }

  // An answer too large leaves no copy; any other is the last entry. The rest are as they were.
  ghost predicate IsRemembered(was: Slots, key: Key, body: string, now: int, meta: Meta, after: Slots) {
    && (|Encoded(body)| > 4_194_304 ==> forall slot :: slot in after ==> slot.key != key)
    && (|Encoded(body)| <= 4_194_304 ==>
         && after != [] && after[|after| - 1].key == key
         && IsKept(after[|after| - 1].entry, was, key, body, now, meta))
    && (forall slot :: slot in after && slot.key != key ==> slot in was)
  }

  lemma RememberMeans(slots: Slots, key: Key, body: string, now: int, meta: Meta)
    requires Distinct(slots)
    ensures IsRemembered(slots, key, body, now, meta, Remembered(slots, key, body, now, meta))
  {
    MeasuredInUtf8(body);
    RememberedMeans(slots, key, body, now, meta);
    if Utf8Length(body) <= MAX_ENTRY_BYTES { JustStoredStays(slots, key, body, now, meta); }
    KeptIsKept(slots, key, body, now, meta);
  }

  // What is kept of an answer: when it was read, when its page was last opened, and where
  // it came from, a key's earlier entry filling in what is not said.
  ghost predicate IsKept(e: Entry, was: Slots, key: Key, body: string, now: int, meta: Meta) {
    && e.body == body && e.at == now && e.bytes == |Encoded(body)|
    && (forall slot :: slot in was && slot.key == key ==>
         && e.viewedAt == (if meta.viewed then now else slot.entry.viewedAt)
         && e.url == (if meta.url.Some? then meta.url else slot.entry.url)
         && e.locale == (if meta.locale.Some? then meta.locale else slot.entry.locale))
    && ((forall slot :: slot in was ==> slot.key != key) ==>
       e.viewedAt == now && e.url == meta.url && e.locale == meta.locale)
  }

  lemma KeptIsKept(slots: Slots, key: Key, body: string, now: int, meta: Meta)
    requires Distinct(slots)
    ensures IsKept(Kept(slots, key, body, now, meta), slots, key, body, now, meta)
  {
    MeasuredInUtf8(body);
    forall slot | slot in slots && slot.key == key
      ensures Has(slots, key) && slots[IndexOf(slots, key)] == slot
    {
      HeldAt(slots, slot);
    }
    if Has(slots, key) { assert slots[IndexOf(slots, key)] in slots; }
  }

  // A hit is exactly an entry of the key no more than a day old; it goes to the back, seen
  // now and otherwise as it was. Without one the key has no entry. The rest stand.
  ghost predicate IsRead(was: Slots, key: Key, now: int, hit: Option<Hit>, after: Slots) {
    && (forall slot :: slot in was && slot.key == key ==> IsHitOf(slot, now, hit, after))
    && (hit.Some? ==> exists slot :: slot in was && slot.key == key)
    && (hit.None? ==> forall slot :: slot in after ==> slot.key != key)
    && (forall slot: Slot :: slot.key != key ==> (slot in after <==> slot in was))
  }

  predicate IsHitOf(slot: Slot, now: int, hit: Option<Hit>, after: Slots) {
    if now - slot.entry.at > 86_400_000 then hit == None
    else
      && hit == Some(Hit(slot.entry.body, slot.entry.at))
      && LastIs(after, Slot(slot.key, slot.entry.(viewedAt := now)))
  }

  predicate LastIs(slots: Slots, slot: Slot) { slots != [] && slots[|slots| - 1] == slot }

  lemma OthersStand(slots: Slots, key: Key, now: int)
    requires Distinct(slots)
    ensures forall slot: Slot :: slot.key != key ==> (slot in AfterRead(slots, key, now) <==> slot in slots)
    ensures ReadAnswer(slots, key, now).None? ==> forall slot :: slot in AfterRead(slots, key, now) ==> slot.key != key
  {
    forall slot | slot in slots && slot.key != key
      ensures slot in Without(slots, key)
    {
      StillAmongOthers(slots, key, slot);
    }
    WithoutLacks(slots, key);
    assert forall slot :: slot in Without(slots, key) ==> slot in slots;
  }

  lemma ReadMeans(slots: Slots, key: Key, now: int)
    requires WellKept(slots)
    ensures WellKept(AfterRead(slots, key, now))
    ensures ReadAnswer(slots, key, now).Some? ==> Total(AfterRead(slots, key, now)) == Total(slots)
    ensures IsRead(slots, key, now, ReadAnswer(slots, key, now), AfterRead(slots, key, now))
  {
    AfterReadIsWellKept(slots, key, now);
    if ReadAnswer(slots, key, now).Some? { HitTotal(slots, key, now); }
    OthersStand(slots, key, now);
    forall slot | slot in slots && slot.key == key
      ensures Has(slots, key) && slots[IndexOf(slots, key)] == slot
    {
      HeldAt(slots, slot);
    }
    if Has(slots, key) { assert slots[IndexOf(slots, key)] in slots; }
  }

  lemma {:induction false} AddedTotal(slots: Slots, slot: Slot)
    ensures Total(slots + [slot]) == Total(slots) + slot.entry.bytes
  {
    if slots == [] {
      assert slots + [slot] == [slot];
    } else {
      AddedTotal(slots[1..], slot);
      assert (slots + [slot])[1..] == slots[1..] + [slot];
    }
  }

  lemma FrontGoes(slots: Slots)
    requires slots != []
    ensures Without(slots, slots[0].key) == slots[1..]
  {
  }

  lemma {:induction false} TotalWithout(slots: Slots, key: Key)
    ensures var i := IndexOf(slots, key);
      Total(Without(slots, key)) == if i < |slots| then Total(slots) - slots[i].entry.bytes else Total(slots)
  {
    if slots != [] && slots[0].key == key {
      FrontGoes(slots);
    } else if slots != [] {
      TotalWithout(slots[1..], key);
      var i := IndexOf(slots[1..], key);
      if i < |slots[1..]| {
        assert Without(slots, key) == [slots[0]] + Without(slots[1..], key);
      }
    }
  }

  lemma WithoutLacks(slots: Slots, key: Key)
    requires Distinct(slots)
    ensures forall j :: 0 <= j < |Without(slots, key)| ==> Without(slots, key)[j].key != key
  {
  }

  lemma WithoutIsWellKept(slots: Slots, key: Key)
    requires WellKept(slots)
    ensures WellKept(Without(slots, key))
  {
    TotalWithout(slots, key);
    assert forall slot :: slot in Without(slots, key) ==> slot in slots;
  }

  // The key's slot taken out, and a new one put at the back.
  lemma Restored(slots: Slots, slot: Slot)
    requires WellKept(slots) && slot.entry.bytes == Utf8Length(slot.entry.body) <= MAX_ENTRY_BYTES
    ensures Distinct(Without(slots, slot.key) + [slot]) && Sized(Without(slots, slot.key) + [slot])
    ensures Total(Without(slots, slot.key) + [slot]) == Total(Without(slots, slot.key)) + slot.entry.bytes
  {
    WithoutIsWellKept(slots, slot.key);
    WithoutLacks(slots, slot.key);
    AddedTotal(Without(slots, slot.key), slot);
  }

  // ── eviction ───────────────────────────────────────────────────────────────

  lemma {:induction false} TotalsShrink(slots: Slots, k: nat)
    requires k <= |slots|
    ensures Total(slots[k..]) <= Total(slots)
  {
    if k > 0 {
      TotalsShrink(slots[1..], k - 1);
      assert slots[1..][k - 1..] == slots[k..];
    }
  }

  // Exactly the shortest least-recently-used prefix goes.
  lemma {:induction false} EvictsTheShortestPrefix(slots: Slots) returns (k: nat)
    ensures k <= |slots| && Evict(slots) == slots[k..] && Total(slots[k..]) <= MAX_BYTES
    ensures forall j :: 0 <= j < k ==> Total(slots[j..]) > MAX_BYTES
  {
    k := 0;
    if Total(slots) > MAX_BYTES {
      var rest := EvictsTheShortestPrefix(slots[1..]);
      k := rest + 1;
      assert slots[1..][rest..] == slots[k..];
      forall j | 0 <= j < k
        ensures Total(slots[j..]) > MAX_BYTES
      {
        assert j > 0 ==> slots[1..][j - 1..] == slots[j..];
        assert j == 0 ==> slots[j..] == slots;
      }
    } else {
      assert slots[0..] == slots;
    }
  }

  // The entry just stored is never the one to go, and nothing goes while all fits.
  lemma JustStoredStays(slots: Slots, key: Key, body: string, now: int, meta: Meta)
    requires Utf8Length(body) <= MAX_ENTRY_BYTES
    ensures var after := Remembered(slots, key, body, now, meta);
      after != [] && after[|after| - 1] == Slot(key, Kept(slots, key, body, now, meta))
    ensures var all := Without(slots, key) + [Slot(key, Kept(slots, key, body, now, meta))];
      Total(all) <= MAX_BYTES ==> Remembered(slots, key, body, now, meta) == all
  {
    var all := Without(slots, key) + [Slot(key, Kept(slots, key, body, now, meta))];
    var k := EvictsTheShortestPrefix(all);
    assert Total(all[|all| - 1..]) == Utf8Length(body) by { assert all[|all| - 1..] == [all[|all| - 1]]; }
  }

  // ── over whole runs ────────────────────────────────────────────────────────

  // A read that is out: a page opened live, or a background refresh before and after it
  // found its view still kept. `since` and `checked` count the clears so far.
  datatype Out =
    | Live(key: Key, since: nat)
    | Refreshing(key: Key, url: string, locale: string, since: nat)
    | Checked(key: Key, url: string, locale: string, since: nat, checked: nat, now: int)

  datatype State = State(slots: Slots, out: map<nat, Out>, clears: nat)

  datatype Event =
    | OpenLive(read: nat, key: Key)
    | KeepLive(read: nat, body: string, now: int, url: string, locale: string)
    | OpenRefresh(read: nat, key: Key, url: string, locale: string)
    | CheckRefresh(read: nat, now: int)
    | KeepRefresh(read: nat, body: string)
    | Paint(key: Key, now: int)
    | Clear

  datatype Trace = Boot | Then(before: Trace, event: Event)

  // What an event hands to the store.
  datatype Handed = Handed(key: Key, body: string, now: int, meta: Meta, since: nat, checked: nat)

  predicate Fits(h: Handed) { Utf8Length(h.body) <= MAX_ENTRY_BYTES }

  function HandedBy(s: State, e: Event): Option<Handed> {
    match e
    case KeepLive(read, body, now, url, locale) =>
      if read in s.out && s.out[read].Live? then
        Some(Handed(s.out[read].key, body, now, Meta(Some(url), Some(locale), true), s.out[read].since,
          s.out[read].since))
      else None
    case KeepRefresh(read, body) =>
      if read in s.out && s.out[read].Checked? then
        var r := s.out[read];
        Some(Handed(r.key, body, r.now, Meta(Some(r.url), Some(r.locale), false), r.since, r.checked))
      else None
    case _ => None
  }

  function AfterHanding(slots: Slots, h: Handed): Slots { Remembered(slots, h.key, h.body, h.now, h.meta) }

  // A live answer is kept as it comes; a refresh starts only for a view that is kept under
  // its own address, and is dropped if its view is gone once the answer is in.
  function Next(s: State, e: Event): Option<State> {
    match e
    case OpenLive(read, key) =>
      if read in s.out then None else Some(s.(out := s.out[read := Live(key, s.clears)]))
    case OpenRefresh(read, key, url, locale) =>
      if read !in s.out && Has(s.slots, key) && s.slots[IndexOf(s.slots, key)].entry.url == Some(url) then
        Some(s.(out := s.out[read := Refreshing(key, url, locale, s.clears)]))
      else None
    case CheckRefresh(read, now) =>
      if read in s.out && s.out[read].Refreshing? then
        var r := s.out[read];
        Some(s.(out := if Has(s.slots, r.key)
          then s.out[read := Checked(r.key, r.url, r.locale, r.since, s.clears, now)]
                         else s.out - {read}))
      else None
    case KeepLive(read, _, _, _, _) =>
      var h := HandedBy(s, e);
      if h.Some? then Some(s.(slots := AfterHanding(s.slots, h.value), out := s.out - {read})) else None
    case KeepRefresh(read, _) =>
      var h := HandedBy(s, e);
      if h.Some? then Some(s.(slots := AfterHanding(s.slots, h.value), out := s.out - {read})) else None
    case Paint(key, now) => Some(s.(slots := AfterRead(s.slots, key, now)))
    case Clear => Some(s.(slots := [], clears := s.clears + 1))
  }

  function Run(trace: Trace): Option<State> {
    match trace
    case Boot => Some(State([], map[], 0))
    case Then(before, event) =>
      match Run(before)
      case None => None
      case Some(s) => Next(s, event)
  }

  // The slots after an event: handed something, painted from, cleared, or left alone.
  lemma SlotsAfter(s: State, e: Event)
    requires Next(s, e).Some?
    ensures Next(s, e).value.slots ==
      if HandedBy(s, e).Some? then AfterHanding(s.slots, HandedBy(s, e).value)
      else if e.Paint? then AfterRead(s.slots, e.key, e.now)
      else if e.Clear? then [] else s.slots
    ensures Next(s, e).value.clears == if e.Clear? then s.clears + 1 else s.clears
  {
  }

  // What an undisturbed live read brings is kept, as just viewed.
  lemma ALiveAnswerIsKept(s: State, read: nat, key: Key, body: string, now: int, url: string, locale: string)
    returns (begun: State, v: State)
    requires WellKept(s.slots) && read !in s.out
    ensures Next(s, OpenLive(read, key)) == Some(begun)
      && Next(begun, KeepLive(read, body, now, url, locale)) == Some(v)
    ensures begun.slots == s.slots && read !in v.out
    ensures IsRemembered(s.slots, key, body, now, Meta(Some(url), Some(locale), true), v.slots)
  {
    begun := Next(s, OpenLive(read, key)).value;
    v := Next(begun, KeepLive(read, body, now, url, locale)).value;
    RememberMeans(s.slots, key, body, now, Meta(Some(url), Some(locale), true));
  }

  // A refresh is started for a kept view under its own address, and for no other; what it
  // brings is kept, not as a view, unless the view has gone by then.
  lemma ARefreshIsKept(s: State, read: nat, key: Key, url: string, locale: string)
    requires WellKept(s.slots) && read !in s.out
    ensures Next(s, OpenRefresh(read, key, url, locale)).Some? <==>
      exists slot :: slot in s.slots && slot.key == key && slot.entry.url == Some(url)
    ensures Next(s, OpenRefresh(read, key, url, locale)).Some? ==>
      var begun := Next(s, OpenRefresh(read, key, url, locale)).value;
      forall body, now :: IsKeptOf(begun, s.slots, read, key, body, now, url, locale)
    ensures Next(s, OpenRefresh(read, key, url, locale)).Some? ==>
      var begun := Next(s, OpenRefresh(read, key, url, locale)).value;
      forall now :: IsDropped(Next(begun, Clear).value, read, now)
  {
    if slot :| slot in s.slots && slot.key == key && slot.entry.url == Some(url) { HeldAt(s.slots, slot); }
    if Next(s, OpenRefresh(read, key, url, locale)).Some? {
      assert s.slots[IndexOf(s.slots, key)] in s.slots;
      var begun := s.(out := s.out[read := Refreshing(key, url, locale, s.clears)]);
      forall body, now
        ensures IsKeptOf(begun, s.slots, read, key, body, now, url, locale)
      {
        ARefreshPasses(begun, read, key, body, now, url, locale);
      }
    }
  }

  lemma ARefreshPasses(s: State, read: nat, key: Key, body: string, now: int, url: string, locale: string)
    requires Distinct(s.slots) && Has(s.slots, key) && read in s.out
    requires s.out[read].Refreshing? && s.out[read].key == key && s.out[read].url == url && s.out[read].locale == locale
    ensures IsKeptOf(s, s.slots, read, key, body, now, url, locale)
  {
    RememberMeans(s.slots, key, body, now, Meta(Some(url), Some(locale), false));
    var checked := Next(s, CheckRefresh(read, now)).value;
    assert HandedBy(checked, KeepRefresh(read, body)).Some?;
  }

  // The read's answer passes its check and is kept so.
  ghost predicate IsKeptOf(begun: State, was: Slots, read: nat, key: Key, body: string, now: int, url: string,
                           locale: string) {
    && Next(begun, CheckRefresh(read, now)).Some?
    && var checked := Next(begun, CheckRefresh(read, now)).value;
    && Next(checked, KeepRefresh(read, body)).Some?
    && IsRemembered(was, key, body, now, Meta(Some(url), Some(locale), false),
                    Next(checked, KeepRefresh(read, body)).value.slots)
  }

  // The read's answer does not pass its check: nothing is kept of it.
  ghost predicate IsDropped(s: State, read: nat, now: int) {
    && Next(s, CheckRefresh(read, now)).Some?
    && var checked := Next(s, CheckRefresh(read, now)).value;
    && checked.slots == s.slots && read !in checked.out
  }

  lemma EvictIsWellKept(slots: Slots)
    requires Distinct(slots) && Sized(slots)
    ensures WellKept(Evict(slots))
  {
    var k := EvictsTheShortestPrefix(slots);
    assert forall slot :: slot in slots[k..] ==> slot in slots;
  }

  lemma RememberedIsWellKept(slots: Slots, key: Key, body: string, now: int, meta: Meta)
    requires WellKept(slots)
    ensures WellKept(Remembered(slots, key, body, now, meta))
  {
    if Utf8Length(body) <= MAX_ENTRY_BYTES {
      Restored(slots, Slot(key, Kept(slots, key, body, now, meta)));
      EvictIsWellKept(Without(slots, key) + [Slot(key, Kept(slots, key, body, now, meta))]);
    } else {
      WithoutIsWellKept(slots, key);
    }
  }

  // A hit keeps the bytes as they were.
  lemma HitTotal(slots: Slots, key: Key, now: int)
    requires Distinct(slots) && ReadAnswer(slots, key, now).Some?
    ensures Total(AfterRead(slots, key, now)) == Total(slots)
  {
    TotalWithout(slots, key);
    AddedTotal(Without(slots, key), Slot(key, slots[IndexOf(slots, key)].entry.(viewedAt := now)));
  }

  lemma AfterReadIsWellKept(slots: Slots, key: Key, now: int)
    requires WellKept(slots)
    ensures WellKept(AfterRead(slots, key, now))
  {
    var i := IndexOf(slots, key);
    if i < |slots| {
      assert slots[i] in slots;
      Restored(slots, Slot(key, slots[i].entry.(viewedAt := now)));
      TotalWithout(slots, key);
    }
    WithoutIsWellKept(slots, key);
  }

  // Whatever happens: one entry a key, each within its limit, all within theirs.
  lemma {:induction false} AlwaysWithinBounds(trace: Trace)
    requires Run(trace).Some?
    ensures WellKept(Run(trace).value.slots) && Total(Run(trace).value.slots) <= 33_554_432
  {
    if trace.Then? {
      AlwaysWithinBounds(trace.before);
      var s, e := Run(trace.before).value, trace.event;
      SlotsAfter(s, e);
      var h := HandedBy(s, e);
      if h.Some? { RememberedIsWellKept(s.slots, h.value.key, h.value.body, h.value.now, h.value.meta); }
      if e.Paint? { AfterReadIsWellKept(s.slots, e.key, e.now); }
    }
  }

  // What is held after storing: the new entry, if it is not too large, and older ones of other keys.
  lemma RememberedMeans(slots: Slots, key: Key, body: string, now: int, meta: Meta)
    requires Distinct(slots)
    ensures forall slot :: slot in Remembered(slots, key, body, now, meta) ==>
      if slot.key == key then Utf8Length(body) <= MAX_ENTRY_BYTES && slot.entry == Kept(slots, key, body, now, meta)
      else slot in slots
  {
    WithoutLacks(slots, key);
    assert forall slot :: slot in Without(slots, key) ==> slot in slots;
    if Utf8Length(body) <= MAX_ENTRY_BYTES {
      var k := EvictsTheShortestPrefix(Without(slots, key) + [Slot(key, Kept(slots, key, body, now, meta))]);
    }
  }

  lemma AfterReadMeans(slots: Slots, key: Key, now: int)
    requires Distinct(slots)
    ensures forall slot :: slot in AfterRead(slots, key, now) ==>
      slot in slots || (Has(slots, key) && slot == Slot(key, slots[IndexOf(slots, key)].entry.(viewedAt := now)))
  {
    assert forall slot :: slot in Without(slots, key) ==> slot in slots;
  }

  // What the event does to what is held, slot by slot.
  lemma SlotsMean(s: State, e: Event)
    requires WellKept(s.slots) && Next(s, e).Some?
    ensures var after, h := Next(s, e).value.slots, HandedBy(s, e);
      && (h.Some? ==> forall slot :: slot in after ==>
            if slot.key == h.value.key
              then Fits(h.value) && slot.entry == Kept(s.slots, slot.key, h.value.body, h.value.now, h.value.meta)
            else slot in s.slots)
      && (h.Some? && Fits(h.value) ==>
            after != [] && after[|after| - 1] == Slot(h.value.key,
              Kept(s.slots, h.value.key, h.value.body, h.value.now, h.value.meta)))
      && (h.None? ==> forall slot :: slot in after ==>
            !e.Clear? && Has(s.slots, slot.key) &&
            var was := s.slots[IndexOf(s.slots, slot.key)].entry;
            slot.entry == if e.Paint? && e.key == slot.key && ReadAnswer(s.slots, e.key, e.now).Some?
              then was.(viewedAt := e.now) else was)
  {
    SlotsAfter(s, e);
    var h := HandedBy(s, e);
    if h.Some? {
      RememberedMeans(s.slots, h.value.key, h.value.body, h.value.now, h.value.meta);
      if Fits(h.value) { JustStoredStays(s.slots, h.value.key, h.value.body, h.value.now, h.value.meta); }
    } else {
      forall slot | slot in s.slots
        ensures Has(s.slots, slot.key) && s.slots[IndexOf(s.slots, slot.key)] == slot
      {
        HeldAt(s.slots, slot);
      }
      if e.Paint? {
        AfterReadMeans(s.slots, e.key, e.now);
        HitsOnly(s.slots, e.key, e.now);
      }
    }
  }

  lemma HeldAt(slots: Slots, slot: Slot)
    requires Distinct(slots) && slot in slots
    ensures Has(slots, slot.key) && slots[IndexOf(slots, slot.key)] == slot
  {
    var j :| 0 <= j < |slots| && slots[j] == slot;
  }

  // After a read that answers nothing the key is not held.
  lemma HitsOnly(slots: Slots, key: Key, now: int)
    requires Distinct(slots)
    ensures forall slot :: slot in AfterRead(slots, key, now) && slot.key == key ==>
      ReadAnswer(slots, key, now).Some? && slot.entry.viewedAt == now
  {
    WithoutLacks(slots, key);
  }

  // The last answer handed over for the key since the store was last cleared; none if it
  // was too large to keep.
  function Latest(trace: Trace, key: Key): Option<Handed>
    requires Run(trace).Some?
  {
    if trace.Boot? || trace.event.Clear? then None
    else
      var h := HandedBy(Run(trace.before).value, trace.event);
      if h.Some? && h.value.key == key then (if Fits(h.value) then h else None) else Latest(trace.before, key)
  }

  predicate IsOf(slot: Slot, latest: Option<Handed>) {
    latest.Some? && latest.value.body == slot.entry.body && latest.value.now == slot.entry.at
  }

  ghost predicate AllLatest(trace: Trace)
    requires Run(trace).Some?
  {
    forall slot :: slot in Run(trace).value.slots ==> IsOf(slot, Latest(trace, slot.key))
  }

  lemma {:induction false} EntriesAreLatest(trace: Trace)
    requires Run(trace).Some?
    ensures AllLatest(trace)
  {
    if trace.Then? {
      EntriesAreLatest(trace.before);
      AlwaysWithinBounds(trace.before);
      var s := Run(trace.before).value;
      SlotsMean(s, trace.event);
      forall slot | slot in Run(trace).value.slots
        ensures IsOf(slot, Latest(trace, slot.key))
      {
        if Has(s.slots, slot.key) { assert s.slots[IndexOf(s.slots, slot.key)] in s.slots; }
      }
    }
  }

  // What a read answers is the last body kept for its key since the last clear, at most a
  // day old.
  lemma HitsAreLatest(trace: Trace, key: Key, now: int)
    requires Run(trace).Some? && ReadAnswer(Run(trace).value.slots, key, now).Some?
    ensures var hit, latest := ReadAnswer(Run(trace).value.slots, key, now).value, Latest(trace, key);
      && latest.Some? && hit == Hit(latest.value.body, latest.value.now)
      && now - hit.at <= MAX_AGE_MS
  {
    EntriesAreLatest(trace);
    var slots := Run(trace).value.slots;
    assert slots[IndexOf(slots, key)] in slots;
  }

  // ── the order is that of use ───────────────────────────────────────────────

  function Length(trace: Trace): nat { if trace.Boot? then 0 else Length(trace.before) + 1 }

  // The event keeps an answer for the key, or paints what is held for it.
  predicate Uses(s: State, e: Event, key: Key) {
    var h := HandedBy(s, e);
    (h.Some? && h.value.key == key && Fits(h.value))
      || (e.Paint? && e.key == key && ReadAnswer(s.slots, key, e.now).Some?)
  }

  // When the key was last kept or painted, counting events.
  function LastUse(trace: Trace, key: Key): (n: nat)
    requires Run(trace).Some?
    ensures n <= Length(trace)
  {
    if trace.Boot? then 0
    else if Uses(Run(trace.before).value, trace.event, key) then Length(trace)
    else LastUse(trace.before, key)
  }

  ghost predicate InOrderOfUse(slots: Slots, trace: Trace)
    requires Run(trace).Some?
  {
    forall i, j :: 0 <= i < j < |slots| ==> LastUse(trace, slots[i].key) < LastUse(trace, slots[j].key)
  }

  lemma WithoutKeepsOrder(slots: Slots, key: Key, trace: Trace)
    requires Run(trace).Some? && InOrderOfUse(slots, trace)
    ensures InOrderOfUse(Without(slots, key), trace)
  {
  }

  lemma SuffixKeepsOrder(slots: Slots, k: nat, trace: Trace)
    requires Run(trace).Some? && InOrderOfUse(slots, trace) && k <= |slots|
    ensures InOrderOfUse(slots[k..], trace)
  {
  }

  // The key used now goes last; for the others nothing has changed.
  lemma UsedGoesLast(trace: Trace, slots: Slots, slot: Slot)
    requires Run(trace).Some? && trace.Then? && Uses(Run(trace.before).value, trace.event, slot.key)
    requires InOrderOfUse(slots, trace.before) && forall i :: 0 <= i < |slots| ==> slots[i].key != slot.key
    ensures InOrderOfUse(slots + [slot], trace)
  {
    var all := slots + [slot];
    forall i, j | 0 <= i < j < |all|
      ensures LastUse(trace, all[i].key) < LastUse(trace, all[j].key)
    {
      assert !Uses(Run(trace.before).value, trace.event, all[i].key);
      if j < |slots| { assert !Uses(Run(trace.before).value, trace.event, all[j].key); }
    }
  }

  lemma UnusedKeepOrder(trace: Trace, slots: Slots)
    requires Run(trace).Some? && trace.Then? && InOrderOfUse(slots, trace.before)
    requires forall i :: 0 <= i < |slots| ==> !Uses(Run(trace.before).value, trace.event, slots[i].key)
    ensures InOrderOfUse(slots, trace)
  {
  }

  // All there is once an answer has been added, before any of it is evicted.
  function Added(slots: Slots, h: Handed): Slots {
    Without(slots, h.key) + [Slot(h.key, Kept(slots, h.key, h.body, h.now, h.meta))]
  }

  lemma AddedInOrder(trace: Trace, s: State, h: Handed)
    requires Run(trace).Some? && trace.Then? && Run(trace.before) == Some(s)
    requires HandedBy(s, trace.event) == Some(h) && Fits(h)
    requires WellKept(s.slots) && InOrderOfUse(s.slots, trace.before)
    ensures Run(trace).value.slots == Evict(Added(s.slots, h)) && InOrderOfUse(Added(s.slots, h), trace)
  {
    SlotsAfter(s, trace.event);
    WithoutKeepsOrder(s.slots, h.key, trace.before);
    WithoutLacks(s.slots, h.key);
    UsedGoesLast(trace, Without(s.slots, h.key), Slot(h.key, Kept(s.slots, h.key, h.body, h.now, h.meta)));
  }

  lemma PaintKeepsOrder(trace: Trace, s: State, key: Key, now: int)
    requires Run(trace).Some? && trace.Then? && Run(trace.before) == Some(s) && trace.event == Paint(key, now)
    requires WellKept(s.slots) && InOrderOfUse(s.slots, trace.before)
    ensures InOrderOfUse(Run(trace).value.slots, trace)
  {
    SlotsAfter(s, trace.event);
    var others := Without(s.slots, key);
    WithoutKeepsOrder(s.slots, key, trace.before);
    WithoutLacks(s.slots, key);
    if ReadAnswer(s.slots, key, now).Some? {
      UsedGoesLast(trace, others, Slot(key, s.slots[IndexOf(s.slots, key)].entry.(viewedAt := now)));
    } else {
      UnusedKeepOrder(trace, others);
    }
  }

  lemma StepKeepsOrder(trace: Trace)
    requires Run(trace).Some? && trace.Then?
    requires WellKept(Run(trace.before).value.slots) && InOrderOfUse(Run(trace.before).value.slots, trace.before)
    ensures InOrderOfUse(Run(trace).value.slots, trace)
  {
    var s, e := Run(trace.before).value, trace.event;
    var h := HandedBy(s, e);
    SlotsAfter(s, e);
    if h.Some? && Fits(h.value) {
      AddedInOrder(trace, s, h.value);
      var k := EvictsTheShortestPrefix(Added(s.slots, h.value));
      SuffixKeepsOrder(Added(s.slots, h.value), k, trace);
    } else if h.Some? {
      WithoutKeepsOrder(s.slots, h.value.key, trace.before);
      UnusedKeepOrder(trace, Without(s.slots, h.value.key));
    } else if e.Paint? {
      PaintKeepsOrder(trace, s, e.key, e.now);
    } else {
      UnusedKeepOrder(trace, Run(trace).value.slots);
    }
  }

  // After any run what is held stands in the order in which it was last kept or painted.
  lemma {:induction false} AlwaysInOrderOfUse(trace: Trace)
    requires Run(trace).Some?
    ensures InOrderOfUse(Run(trace).value.slots, trace)
  {
    if trace.Then? {
      AlwaysInOrderOfUse(trace.before);
      AlwaysWithinBounds(trace.before);
      StepKeepsOrder(trace);
    }
  }

  // So what is evicted to make room was used before everything that stays.
  lemma EvictsTheLeastRecentlyUsed(before: Trace, e: Event, s: State, v: State, h: Handed, a: Slot, b: Slot)
    requires Run(before) == Some(s) && Next(s, e) == Some(v) && HandedBy(s, e) == Some(h) && Fits(h)
    requires a in s.slots && a.key != h.key && a !in v.slots && b in v.slots
    ensures LastUse(Then(before, e), a.key) < LastUse(Then(before, e), b.key)
  {
    AlwaysInOrderOfUse(before);
    AlwaysWithinBounds(before);
    AddedInOrder(Then(before, e), s, h);
    StillAmongOthers(s.slots, h.key, a);
    GoesBefore(Then(before, e), Added(s.slots, h), a, b);
  }

  lemma GoesBefore(trace: Trace, all: Slots, a: Slot, b: Slot)
    requires Run(trace).Some? && InOrderOfUse(all, trace) && a in all && a !in Evict(all) && b in Evict(all)
    ensures LastUse(trace, a.key) < LastUse(trace, b.key)
  {
    var k := EvictsTheShortestPrefix(all);
    var i :| 0 <= i < |all| && all[i] == a;
    var j :| 0 <= j < |all[k..]| && all[k..][j] == b;
    PastTheCut(all, k, i);
    assert all[k + j] == b;
  }

  lemma PastTheCut(slots: Slots, k: nat, i: nat)
    requires k <= |slots| && i < |slots|
    ensures i >= k ==> slots[i] in slots[k..]
  {
    if i >= k { assert slots[k..][i - k] == slots[i]; }
  }

  lemma StillAmongOthers(slots: Slots, key: Key, slot: Slot)
    requires slot in slots && slot.key != key
    ensures slot in Without(slots, key)
  {
    var j :| 0 <= j < |slots| && slots[j] == slot;
    var i := IndexOf(slots, key);
    if i < |slots| { assert Without(slots, key)[if j < i then j else j - 1] == slot; }
  }

  // ── exactly when a clear wins ──────────────────────────────────────────────

  // What is held was asked for since the last clear.
  ghost predicate AllFresh(trace: Trace)
    requires Run(trace).Some?
  {
    forall slot :: slot in Run(trace).value.slots ==>
      Latest(trace, slot.key).Some? && Latest(trace, slot.key).value.since == Run(trace).value.clears
  }

  ghost predicate FreshThroughout(trace: Trace)
    requires Run(trace).Some?
  {
    AllFresh(trace) && (trace.Then? ==> FreshThroughout(trace.before))
  }

  // No answer small enough to keep is handed over by a read that was out at the last clear.
  predicate NothingOutlivesAClear(trace: Trace)
    requires Run(trace).Some?
  {
    trace.Then? ==>
      && NothingOutlivesAClear(trace.before)
      && var s := Run(trace.before).value;
      var h := HandedBy(s, trace.event);
      h.Some? && Fits(h.value) ==> h.value.since == s.clears
  }

  lemma StepIsFreshExactly(trace: Trace)
    requires Run(trace).Some? && trace.Then? && AllFresh(trace.before)
    ensures var s := Run(trace.before).value;
      var h := HandedBy(s, trace.event);
      AllFresh(trace) <==> (h.Some? && Fits(h.value) ==> h.value.since == s.clears)
  {
    AlwaysWithinBounds(trace.before);
    var s, after := Run(trace.before).value, Run(trace).value.slots;
    SlotsMean(s, trace.event);
    SlotsAfter(s, trace.event);
    var h := HandedBy(s, trace.event);
    if h.Some? && Fits(h.value) { assert after[|after| - 1] in after; }
    forall slot | slot in after && !(h.Some? && h.value.key == slot.key)
      ensures Latest(trace, slot.key) == Latest(trace.before, slot.key)
      ensures Latest(trace, slot.key).Some? && Latest(trace, slot.key).value.since == s.clears
    {
      assert (if h.Some? then slot else s.slots[IndexOf(s.slots, slot.key)]) in s.slots;
    }
  }

  // At every moment everything held was asked for since the last clear, if and only if no
  // read that was out at a clear hands over an answer small enough to keep.
  lemma {:induction false} ClearsWinExactly(trace: Trace)
    requires Run(trace).Some?
    ensures FreshThroughout(trace) <==> NothingOutlivesAClear(trace)
  {
    if trace.Then? {
      ClearsWinExactly(trace.before);
      if FreshThroughout(trace.before) { StepIsFreshExactly(trace); }
    }
  }

  // ── exactly when what is held has been opened since the last clear ─────────

  // Its page was opened live since the last clear, and answered.
  predicate OpenedSince(trace: Trace, key: Key)
    requires Run(trace).Some?
  {
    trace.Then? && !trace.event.Clear? &&
    var s := Run(trace.before).value;
    var h := HandedBy(s, trace.event);
    (h.Some? && h.value.meta.viewed && h.value.key == key && h.value.since == s.clears)
      || OpenedSince(trace.before, key)
  }

  ghost predicate AllOpened(trace: Trace)
    requires Run(trace).Some?
  {
    forall slot :: slot in Run(trace).value.slots ==> OpenedSince(trace, slot.key)
  }

  ghost predicate OpenedThroughout(trace: Trace)
    requires Run(trace).Some?
  {
    AllOpened(trace) && (trace.Then? ==> OpenedThroughout(trace.before))
  }

  // A live read out at the last clear, or a refresh checked before it, brings an answer
  // back only for a page opened again since.
  predicate NothingComesBack(trace: Trace)
    requires Run(trace).Some?
  {
    trace.Then? ==>
      && NothingComesBack(trace.before)
      && var s := Run(trace.before).value;
      var h := HandedBy(s, trace.event);
      h.Some? && Fits(h.value) && h.value.checked < s.clears ==> OpenedSince(trace.before, h.value.key)
  }

  // A refresh checked since the last clear found a page that had been opened since.
  ghost predicate ChecksOpened(trace: Trace)
    requires Run(trace).Some?
  {
    var s := Run(trace).value;
    forall read :: read in s.out ==>
      && s.out[read].since <= s.clears
      && (s.out[read].Checked? ==>
            s.out[read].checked <= s.clears
              && (s.out[read].checked == s.clears ==> OpenedSince(trace, s.out[read].key)))
  }

  lemma OpenedUntilCleared(trace: Trace, key: Key)
    requires Run(trace).Some? && trace.Then? && !trace.event.Clear? && OpenedSince(trace.before, key)
    ensures OpenedSince(trace, key)
  {
  }

  lemma StepChecksOpened(trace: Trace)
    requires Run(trace).Some? && trace.Then? && ChecksOpened(trace.before) && AllOpened(trace.before)
    ensures ChecksOpened(trace)
  {
    var s, v := Run(trace.before).value, Run(trace).value;
    forall read | read in v.out
      ensures v.out[read].since <= v.clears
      ensures v.out[read].Checked? ==>
        v.out[read].checked <= v.clears && (v.out[read].checked == v.clears ==> OpenedSince(trace, v.out[read].key))
    {
      if trace.event.CheckRefresh? && trace.event.read == read {
        assert s.slots[IndexOf(s.slots, v.out[read].key)] in s.slots;
        OpenedUntilCleared(trace, v.out[read].key);
      } else if read in s.out && !trace.event.Clear? && OpenedSince(trace.before, s.out[read].key) {
        OpenedUntilCleared(trace, s.out[read].key);
      }
    }
  }

  lemma StepIsOpenedExactly(trace: Trace)
    requires Run(trace).Some? && trace.Then? && AllOpened(trace.before) && ChecksOpened(trace.before)
    ensures var s := Run(trace.before).value;
      var h := HandedBy(s, trace.event);
      AllOpened(trace) <==>
        (h.Some? && Fits(h.value) && h.value.checked < s.clears ==> OpenedSince(trace.before, h.value.key))
  {
    AlwaysWithinBounds(trace.before);
    var s, after := Run(trace.before).value, Run(trace).value.slots;
    SlotsMean(s, trace.event);
    SlotsAfter(s, trace.event);
    var h := HandedBy(s, trace.event);
    if h.Some? && Fits(h.value) { assert after[|after| - 1] in after; }
    forall slot | slot in after && !(h.Some? && h.value.key == slot.key)
      ensures OpenedSince(trace, slot.key)
    {
      assert (if h.Some? then slot else s.slots[IndexOf(s.slots, slot.key)]) in s.slots;
      OpenedUntilCleared(trace, slot.key);
    }
  }

  lemma {:induction false} AlwaysChecked(trace: Trace)
    requires Run(trace).Some? && (trace.Then? ==> OpenedThroughout(trace.before))
    ensures ChecksOpened(trace)
  {
    if trace.Then? {
      AlwaysChecked(trace.before);
      StepChecksOpened(trace);
    }
  }

  // At every moment every page held has been opened live since the last clear, if and
  // only if no live read out at a clear, and no refresh checked before it, hands over an
  // answer small enough to keep for a page not opened since.
  lemma {:induction false} NothingComesBackExactly(trace: Trace)
    requires Run(trace).Some?
    ensures OpenedThroughout(trace) <==> NothingComesBack(trace)
  {
    if trace.Then? {
      NothingComesBackExactly(trace.before);
      if OpenedThroughout(trace.before) {
        AlwaysChecked(trace.before);
        StepIsOpenedExactly(trace);
      }
    }
  }

  // ── three runs a clear loses ───────────────────────────────────────────────

  lemma StoredAlone(slots: Slots, key: Key, body: string, now: int, meta: Meta)
    requires slots == [] || (|slots| == 1 && slots[0].key == key)
    requires Utf8Length(body) <= MAX_ENTRY_BYTES
    ensures Remembered(slots, key, body, now, meta) == [Slot(key, Kept(slots, key, body, now, meta))]
  {
    var slot := Slot(key, Kept(slots, key, body, now, meta));
    assert Without(slots, key) == [];
    assert Without(slots, key) + [slot] == [slot];
    assert [slot][1..] == [] && Total([slot]) == slot.entry.bytes;
    JustStoredStays(slots, key, body, now, meta);
  }

  predicate Paints(trace: Trace, key: Key, body: string, now: int) {
    Run(trace).Some? && ReadAnswer(Run(trace).value.slots, key, now) == Some(Hit(body, now))
  }

  function Opened(before: Trace, read: nat, key: Key, body: string, now: int, url: string, locale: string): Trace {
    Then(Then(before, OpenLive(read, key)), KeepLive(read, body, now, url, locale))
  }

  lemma OpeningStores(before: Trace, read: nat, key: Key, body: string, now: int, url: string, locale: string)
    requires Run(before).Some? && read !in Run(before).value.out && Run(before).value.slots == []
    requires Utf8Length(body) <= MAX_ENTRY_BYTES
    ensures var s, v := Run(before).value, Run(Opened(before, read, key, body, now, url, locale));
      v.Some? && v.value.out == s.out && v.value.clears == s.clears && |v.value.slots| == 1
      && v.value.slots[0].key == key && v.value.slots[0].entry.body == body
      && v.value.slots[0].entry.at == now && v.value.slots[0].entry.url == Some(url)
  {
    StoredAlone([], key, body, now, Meta(Some(url), Some(locale), true));
    var s := Run(before).value;
    assert Run(Then(before, OpenLive(read, key))) == Some(s.(out := s.out[read := Live(key, s.clears)]));
    assert s.out[read := Live(key, s.clears)] - {read} == s.out;
  }

  // A page being opened while the store is cleared: its old answer is kept after the clear.
  lemma ALiveReadOutlivesAClear(key: Key, late: string, now: int, url: string, locale: string) returns (trace: Trace)
    requires Utf8Length(late) <= MAX_ENTRY_BYTES
    ensures Paints(trace, key, late, now) && !AllFresh(trace) && !AllOpened(trace)
  {
    var cleared := Then(Then(Boot, OpenLive(0, key)), Clear);
    assert Run(Then(Boot, OpenLive(0, key))) == Some(State([], map[0 := Live(key, 0)], 0));
    assert Run(cleared) == Some(State([], map[0 := Live(key, 0)], 1));
    trace := Then(cleared, KeepLive(0, late, now, url, locale));
    StoredAlone([], key, late, now, Meta(Some(url), Some(locale), true));
    assert Run(trace).value.slots[0] in Run(trace).value.slots;
    assert !OpenedSince(cleared, key) && !OpenedSince(trace, key);
  }

  // A clear between a refresh's check, which passed, and its keep.
  lemma AClearBetweenCheckAndKeepIsLost(key: Key, first: string, late: string, now: int, url: string, locale: string)
      returns (trace: Trace)
    requires Utf8Length(first) <= MAX_ENTRY_BYTES && Utf8Length(late) <= MAX_ENTRY_BYTES
    ensures Paints(trace, key, late, now) && !AllFresh(trace) && !AllOpened(trace)
  {
    OpeningStores(Boot, 0, key, first, now, url, locale);
    var seen := Opened(Boot, 0, key, first, now, url, locale);
    var asked := Then(seen, OpenRefresh(1, key, url, locale));
    assert Run(asked).value.out == map[1 := Refreshing(key, url, locale, 0)] && Has(Run(asked).value.slots, key);
    var checked := Then(asked, CheckRefresh(1, now));
    assert Run(checked).value.out == map[1 := Checked(key, url, locale, 0, 0, now)];
    var cleared := Then(checked, Clear);
    assert Run(cleared) == Some(State([], map[1 := Checked(key, url, locale, 0, 0, now)], 1));
    trace := Then(cleared, KeepRefresh(1, late));
    StoredAlone([], key, late, now, Meta(Some(url), Some(locale), false));
    assert Run(trace).value.slots[0] in Run(trace).value.slots;
    assert !OpenedSince(cleared, key) && !OpenedSince(trace, key);
  }

  // A page opened again after the clear hides it from the check: the refresh puts what it
  // read before the clear over the newer answer.
  lemma AReopeningHidesTheClear(
    key: Key, first: string, newer: string, late: string, now: int, url: string, locale: string)
      returns (before: Trace, trace: Trace)
    requires Utf8Length(first) <= MAX_ENTRY_BYTES && Utf8Length(newer) <= MAX_ENTRY_BYTES
      && Utf8Length(late) <= MAX_ENTRY_BYTES
    ensures Paints(before, key, newer, now) && AllFresh(before)
    ensures trace == Then(Then(before, CheckRefresh(1, now)), KeepRefresh(1, late))
    ensures Paints(trace, key, late, now) && !AllFresh(trace)
  {
    OpeningStores(Boot, 0, key, first, now, url, locale);
    var seen := Opened(Boot, 0, key, first, now, url, locale);
    var asked := Then(seen, OpenRefresh(1, key, url, locale));
    var out := map[1 := Refreshing(key, url, locale, 0)];
    assert Run(asked).value.out == out;
    var cleared := Then(asked, Clear);
    assert Run(cleared) == Some(State([], out, 1));
    before := Opened(cleared, 2, key, newer, now, url, locale);
    OpeningStores(cleared, 2, key, newer, now, url, locale);
    ReopenedIsFresh(cleared, key, newer, now, url, locale);
    trace := Then(Then(before, CheckRefresh(1, now)), KeepRefresh(1, late));
    RefreshReplaces(before, key, late, now, url, locale);
  }

  // The check passes, whatever is held there; what the refresh read before is kept.
  lemma RefreshReplaces(before: Trace, key: Key, late: string, now: int, url: string, locale: string)
    requires Run(before).Some? && 1 in Run(before).value.out && Run(before).value.clears == 1
    requires Run(before).value.out[1] == Refreshing(key, url, locale, 0)
    requires |Run(before).value.slots| == 1 && Run(before).value.slots[0].key == key
      && Utf8Length(late) <= MAX_ENTRY_BYTES
    ensures var trace := Then(Then(before, CheckRefresh(1, now)), KeepRefresh(1, late));
      Paints(trace, key, late, now) && !AllFresh(trace)
  {
    var s, checked := Run(before).value, Then(before, CheckRefresh(1, now));
    assert Has(s.slots, key);
    assert Run(checked) == Some(s.(out := s.out[1 := Checked(key, url, locale, 0, 1, now)]));
    StoredAlone(s.slots, key, late, now, Meta(Some(url), Some(locale), false));
    var trace := Then(checked, KeepRefresh(1, late));
    assert Run(trace).value.slots[0] in Run(trace).value.slots;
  }

  lemma ReopenedIsFresh(cleared: Trace, key: Key, newer: string, now: int, url: string, locale: string)
    requires Run(cleared).Some? && Run(cleared).value.slots == [] && 2 !in Run(cleared).value.out
      && Utf8Length(newer) <= MAX_ENTRY_BYTES
    ensures Run(Opened(cleared, 2, key, newer, now, url, locale)).Some?
      && AllFresh(Opened(cleared, 2, key, newer, now, url, locale))
  {
    OpeningStores(cleared, 2, key, newer, now, url, locale);
    var asked := Then(cleared, OpenLive(2, key));
    assert AllFresh(asked);
    StepIsFreshExactly(Then(asked, KeepLive(2, newer, now, url, locale)));
  }

  // ── views ──────────────────────────────────────────────────────────────────

  // When the page was last opened: live, or painted from what is held.
  function LastView(trace: Trace, key: Key): Option<int>
    requires Run(trace).Some?
  {
    if trace.Boot? then None
    else
      var s, e := Run(trace.before).value, trace.event;
      var h := HandedBy(s, e);
      if h.Some? && h.value.meta.viewed && h.value.key == key then Some(h.value.now)
      else if e.Paint? && e.key == key && ReadAnswer(s.slots, key, e.now).Some? then Some(e.now)
      else LastView(trace.before, key)
  }

  ghost predicate ViewsKnown(trace: Trace)
    requires Run(trace).Some?
  {
    forall slot :: slot in Run(trace).value.slots ==> LastView(trace, slot.key) == Some(slot.entry.viewedAt)
  }

  ghost predicate ViewsKnownThroughout(trace: Trace)
    requires Run(trace).Some?
  {
    ViewsKnown(trace) && (trace.Then? ==> ViewsKnownThroughout(trace.before))
  }

  // A refresh whose view went after its check counts as a view at that moment.
  predicate NoRefreshPassesForAView(trace: Trace)
    requires Run(trace).Some?
  {
    trace.Then? ==>
      && NoRefreshPassesForAView(trace.before)
      && var s := Run(trace.before).value;
      var h := HandedBy(s, trace.event);
      h.Some? && Fits(h.value) && !h.value.meta.viewed ==>
        Has(s.slots, h.value.key) || LastView(trace.before, h.value.key) == Some(h.value.now)
  }

  lemma StepKnowsViewsExactly(trace: Trace)
    requires Run(trace).Some? && trace.Then? && ViewsKnown(trace.before)
    ensures var s := Run(trace.before).value;
      var h := HandedBy(s, trace.event);
      ViewsKnown(trace) <==> (h.Some? && Fits(h.value) && !h.value.meta.viewed ==>
        Has(s.slots, h.value.key) || LastView(trace.before, h.value.key) == Some(h.value.now))
  {
    AlwaysWithinBounds(trace.before);
    var s, after := Run(trace.before).value, Run(trace).value.slots;
    SlotsMean(s, trace.event);
    var h := HandedBy(s, trace.event);
    if h.Some? {
      if Has(s.slots, h.value.key) { assert s.slots[IndexOf(s.slots, h.value.key)] in s.slots; }
      if Fits(h.value) { assert after[|after| - 1] in after; }
    } else {
      forall slot | slot in after
        ensures LastView(trace, slot.key) == Some(slot.entry.viewedAt)
      {
        assert s.slots[IndexOf(s.slots, slot.key)] in s.slots;
      }
    }
  }

  // A background refresh is not a view: what is held knows when its page was last opened,
  // if and only if each refresh handing over an answer small enough to keep finds its
  // view still there (or opened last at the moment it was checked).
  lemma {:induction false} ViewsAreOpeningsExactly(trace: Trace)
    requires Run(trace).Some?
    ensures ViewsKnownThroughout(trace) <==> NoRefreshPassesForAView(trace)
  {
    if trace.Then? {
      ViewsAreOpeningsExactly(trace.before);
      if ViewsKnownThroughout(trace.before) { StepKnowsViewsExactly(trace); }
    }
  }
}
