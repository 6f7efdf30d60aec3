/** Checkpoints of a v1 simulation state: a length-prefixed binary layout
    (src/engine/simulation_engine.cpp, create_checkpoint and restore_checkpoint),
    carried as base64 text.  Words are 64 bits, little-endian; a double is its
    64-bit pattern. */
module Checkpoint {
  import opened Base64
  import opened Optional

  const WORDS := 0x1_0000_0000_0000_0000

  type Word = x: int | 0 <= x < WORDS
  type Int64 = x: int | -0x8000_0000_0000_0000 <= x < 0x8000_0000_0000_0000

  /** What a checkpoint holds. */
  datatype Image = Image(time: Word, ints: seq<Int64>, floats: seq<Word>, strings: seq<seq<Byte>>, bools: seq<bool>,
                         stale: map<seq<Byte>, bool>)

  datatype Header = Header(time: Word, ints: Word, floats: Word, strings: Word, bools: Word)

  type Entry = (seq<Byte>, bool)

  /** Every length fits a 64-bit size. */
  ghost predicate Fits(st: Image)
  {
    && |st.ints| < WORDS && |st.floats| < WORDS && |st.strings| < WORDS && |st.bools| < WORDS && |st.stale| < WORDS
    && (forall s :: s in st.strings ==> |s| < WORDS) && (forall s :: s in st.stale ==> |s| < WORDS)
  }

  // ------------------------------------------------------------------ words

  function LittleEndian(n: nat, k: nat): (r: seq<Byte>)
    ensures |r| == k
  {
    if k == 0 then [] else [n % 256] + LittleEndian(n / 256, k - 1)
  }

  function FromLittleEndian(b: seq<Byte>): (r: int)
    ensures 0 <= r
  {
    if b == [] then 0 else b[0] as int + 256 * FromLittleEndian(b[1..])
  }

  function Bound(k: nat): int
  {
    if k == 0 then 1 else 256 * Bound(k - 1)
  }

  lemma {:induction false} LittleEndianRoundTrip(n: nat, k: nat)
    requires n < Bound(k)
    ensures FromLittleEndian(LittleEndian(n, k)) == n
  {
    if k > 0 {
      LittleEndianRoundTrip(n / 256, k - 1);
    }
  }

  lemma {:induction false} FromIsBounded(b: seq<Byte>)
    ensures FromLittleEndian(b) < Bound(|b|)
  {
    if b != [] {
      FromIsBounded(b[1..]);
    }
  }

  lemma EightBytes()
    ensures Bound(8) == WORDS
  {
    assert Bound(4) == 0x1_0000_0000;
  }

  /** The bytes of a 64-bit value; a negative one in two's complement. */
  function PutWord(n: int): (r: seq<Byte>)
    ensures |r| == 8
  {
    LittleEndian(n % WORDS, 8)
  }

  function TakeWord(d: seq<Byte>): Option<(Word, seq<Byte>)>
  {
    if |d| < 8 then None
    else
      FromIsBounded(d[..8]);
      EightBytes();
      Some((FromLittleEndian(d[..8]), d[8..]))
  }

  function PutInt(x: Int64): seq<Byte>
  {
    PutWord(x)
  }

  function PutPattern(w: Word): seq<Byte>
  {
    PutWord(w)
  }

  function TakeInt(d: seq<Byte>): Option<(Int64, seq<Byte>)>
  {
    match TakeWord(d)
    case None => None
    case Some(w) => Some((if w.0 < 0x8000_0000_0000_0000 then w.0 as int else w.0 as int - WORDS, w.1))
  }

  lemma WordRoundTrip(n: int, rest: seq<Byte>)
    ensures 0 <= n < WORDS ==> TakeWord(PutWord(n) + rest) == Some((n, rest))
    ensures -0x8000_0000_0000_0000 <= n < 0x8000_0000_0000_0000 ==> TakeInt(PutWord(n) + rest) == Some((n, rest))
  {
    hide LittleEndian, FromLittleEndian;
    var d := PutWord(n) + rest;
    assert d[..8] == PutWord(n) && d[8..] == rest;
    EightBytes();
    LittleEndianRoundTrip(n % WORDS, 8);
  }

  // ---------------------------------------------------------- items and lists

  function PutString(s: seq<Byte>): seq<Byte>
  {
    PutWord(|s|) + s
  }

  function TakeString(d: seq<Byte>): Option<(seq<Byte>, seq<Byte>)>
  {
    match TakeWord(d)
    case None => None
    case Some(w) => if |w.1| < w.0 then None else Some((w.1[..w.0], w.1[w.0..]))
  }

  function PutBool(b: bool): seq<Byte>
  {
    [if b then 1 else 0]
  }

  function TakeBool(d: seq<Byte>): Option<(bool, seq<Byte>)>
  {
    if d == [] then None else Some((d[0] != 0, d[1..]))
  }

  function PutEntry(e: Entry): seq<Byte>
  {
    PutString(e.0) + PutBool(e.1)
  }

  function TakeEntry(d: seq<Byte>): Option<(Entry, seq<Byte>)>
  {
    match TakeString(d)
    case None => None
    case Some(s) =>
      match TakeBool(s.1)
      case None => None
      case Some(b) => Some(((s.0, b.0), b.1))
  }

  lemma StringRoundTrip(s: seq<Byte>, rest: seq<Byte>)
    requires |s| < WORDS
    ensures TakeString(PutString(s) + rest) == Some((s, rest))
  {
    hide PutWord, TakeWord;
    assert PutString(s) + rest == PutWord(|s|) + (s + rest);
    WordRoundTrip(|s|, s + rest);
  }

  lemma EntryRoundTrip(e: Entry, rest: seq<Byte>)
    requires |e.0| < WORDS
    ensures TakeEntry(PutEntry(e) + rest) == Some((e, rest))
  {
    hide PutString, TakeString;
    assert PutEntry(e) + rest == PutString(e.0) + (PutBool(e.1) + rest);
    StringRoundTrip(e.0, PutBool(e.1) + rest);
  }

  function Put<T>(xs: seq<T>, put: T -> seq<Byte>): seq<Byte>
  {
    if xs == [] then [] else put(xs[0]) + Put(xs[1..], put)
  }

  function Take<T>(d: seq<Byte>, n: nat, take: seq<Byte> -> Option<(T, seq<Byte>)>): (r: Option<(seq<T>, seq<Byte>)>)
    ensures r.Some? ==> |r.value.0| == n
    decreases n
  {
    if n == 0 then Some(([], d))
    else
      match take(d)
      case None => None
      case Some(x) =>
        match Take(x.1, n - 1, take)
        case None => None
        case Some(xs) => Some(([x.0] + xs.0, xs.1))
  }

  lemma {:induction false} PutAppend<T>(xs: seq<T>, x: T, put: T -> seq<Byte>)
    ensures Put(xs + [x], put) == Put(xs, put) + put(x)
  {
    if xs == [] {
      assert (xs + [x])[1..] == [];
      assert Put([x], put) == put(x) + [];
    } else {
      PutAppend(xs[1..], x, put);
      assert (xs + [x])[1..] == xs[1..] + [x];
    }
  }

  /** A list is read back when each of its items is. */
  lemma {:induction false} ListRoundTrip<T>(xs: seq<T>, put: T -> seq<Byte>,
                                            take: seq<Byte> -> Option<(T, seq<Byte>)>, rest: seq<Byte>)
    requires forall x, r {:trigger put(x) + r} :: x in xs ==> take(put(x) + r) == Some((x, r))
    ensures Take(Put(xs, put) + rest, |xs|, take) == Some((xs, rest))
  {
    if xs == [] {
      assert Put(xs, put) + rest == rest;
    } else {
      ListRoundTrip(xs[1..], put, take, rest);
      assert Put(xs, put) + rest == put(xs[0]) + (Put(xs[1..], put) + rest);
      assert xs == [xs[0]] + xs[1..];
    }
  }

  // --------------------------------------------------------------- the layout

  function PutHeader(h: Header): seq<Byte>
  {
    PutPattern(h.time) + PutPattern(h.ints) + PutPattern(h.floats) + PutPattern(h.strings) + PutPattern(h.bools)
  }

  function TakeHeader(d: seq<Byte>): Option<(Header, seq<Byte>)>
  {
    match Take(d, 5, TakeWord)
    case None => None
    case Some(ws) => Some((Header(ws.0[0], ws.0[1], ws.0[2], ws.0[3], ws.0[4]), ws.1))
  }

  function HeaderOf(st: Image): Header
  {
    Header(st.time, |st.ints| % WORDS, |st.floats| % WORDS, |st.strings| % WORDS, |st.bools| % WORDS)
  }

  /** The entries list the stale map, in the order in which it is iterated. */
  ghost predicate Enumerates(order: seq<Entry>, stale: map<seq<Byte>, bool>)
  {
    && |order| == |stale|
    && (forall i, j :: 0 <= i < j < |order| ==> order[i].0 != order[j].0)
    && (forall e :: e in order ==> e.0 in stale && stale[e.0] == e.1)
    && (forall id :: id in stale ==> (id, stale[id]) in order)
  }

  function FromEntries(entries: seq<Entry>): map<seq<Byte>, bool>
  {
    if entries == [] then map[]
    else
      var n := |entries| - 1;
      FromEntries(entries[..n])[entries[n].0 := entries[n].1]
  }

  lemma {:induction false} EntriesAreKeys(entries: seq<Entry>, id: seq<Byte>)
    requires forall i, j :: 0 <= i < j < |entries| ==> entries[i].0 != entries[j].0
    ensures id in FromEntries(entries) ==> (id, FromEntries(entries)[id]) in entries
    ensures forall e :: e in entries && e.0 == id ==> id in FromEntries(entries) && FromEntries(entries)[id] == e.1
  {
    if entries != [] {
      var n := |entries| - 1;
      EntriesAreKeys(entries[..n], id);
      assert entries == entries[..n] + [entries[n]];
    }
  }

  lemma EnumerationIsMap(order: seq<Entry>, stale: map<seq<Byte>, bool>)
    requires Enumerates(order, stale)
    ensures FromEntries(order) == stale
  {
    forall id
      ensures id in FromEntries(order) <==> id in stale
      ensures id in stale ==> FromEntries(order)[id] == stale[id]
    {
      EntriesAreKeys(order, id);
      if id in stale {
        assert (id, stale[id]) in order;
      }
    }
  }

  function Buffers(st: Image): seq<Byte>
  {
    Put(st.ints, PutInt) + Put(st.floats, PutPattern) + Put(st.strings, PutString) + Put(st.bools, PutBool)
  }

  function Layout(st: Image, order: seq<Entry>): seq<Byte>
  {
    PutHeader(HeaderOf(st)) + Buffers(st) + (PutWord(|order|) + Put(order, PutEntry))
  }

  /** The four buffers, with the sizes from the header. */
  function TakeBuffers(h: Header, d: seq<Byte>): Option<(Image, seq<Byte>)>
  {
    match Take(d, h.ints, TakeInt)
    case None => None
    case Some(ns) =>
      match Take(ns.1, h.floats, TakeWord)
      case None => None
      case Some(fs) =>
        match Take(fs.1, h.strings, TakeString)
        case None => None
        case Some(ss) =>
          match Take(ss.1, h.bools, TakeBool)
          case None => None
          case Some(bs) => Some((Image(h.time, ns.0, fs.0, ss.0, bs.0, map[]), bs.1))
  }

  function TakeStale(d: seq<Byte>): Option<map<seq<Byte>, bool>>
  {
    match TakeWord(d)
    case None => None
    case Some(n) =>
      match Take(n.1, n.0, TakeEntry)
      case None => None
      case Some(es) => Some(FromEntries(es.0))
  }

  /** The state read from checkpoint data; None if the data end too early. */
  function Parsed(d: seq<Byte>): Option<Image>
  {
    match TakeHeader(d)
    case None => None
    case Some(h) =>
      match TakeBuffers(h.0, h.1)
      case None => None
      case Some(b) =>
        match TakeStale(b.1)
        case None => None
        case Some(stale) => Some(b.0.(stale := stale))
  }

  // --------------------------------------------------------------- round trip

  lemma HeaderRoundTrip(h: Header, rest: seq<Byte>)
    ensures TakeHeader(PutHeader(h) + rest) == Some((h, rest))
  {
    hide PutPattern, TakeWord, Put, Take;
    var ws := [h.time, h.ints, h.floats, h.strings, h.bools];
    FloatsRoundTrip(ws, rest);
    FiveWords(h.time, h.ints, h.floats, h.strings, h.bools);
  }

  lemma FiveWords(a: Word, b: Word, c: Word, d: Word, e: Word)
    ensures Put([a, b, c, d, e], PutPattern)
         == PutPattern(a) + PutPattern(b) + PutPattern(c) + PutPattern(d) + PutPattern(e)
  {
    hide PutPattern;
    assert Put([a], PutPattern) == PutPattern(a) + [];
    PutAppend([a], b, PutPattern);
    PutAppend([a] + [b], c, PutPattern);
    PutAppend([a] + [b] + [c], d, PutPattern);
    PutAppend([a] + [b] + [c] + [d], e, PutPattern);
    assert [a] + [b] + [c] + [d] + [e] == [a, b, c, d, e];
  }

  lemma Nested(a: seq<Byte>, b: seq<Byte>, c: seq<Byte>, d: seq<Byte>, e: seq<Byte>)
    ensures a + b + c + d + e == a + (b + (c + (d + e)))
  {
  }

  lemma BuffersRoundTrip(st: Image, rest: seq<Byte>)
    requires Fits(st)
    ensures TakeBuffers(HeaderOf(st), Buffers(st) + rest) == Some((st.(stale := map[]), rest))
  {
    hide Put, Take, PutInt, PutPattern, PutString, PutBool, TakeInt, TakeWord, TakeString, TakeBool;
    var d3 := Put(st.bools, PutBool) + rest;
    var d2 := Put(st.strings, PutString) + d3;
    var d1 := Put(st.floats, PutPattern) + d2;
    Nested(Put(st.ints, PutInt), Put(st.floats, PutPattern), Put(st.strings, PutString), Put(st.bools, PutBool), rest);
    IntsRoundTrip(st.ints, d1);
    FloatsRoundTrip(st.floats, d2);
    StringsRoundTrip(st.strings, d3);
    BoolsRoundTrip(st.bools, rest);
  }

  lemma IntsRoundTrip(xs: seq<Int64>, rest: seq<Byte>)
    ensures Take(Put(xs, PutInt) + rest, |xs|, TakeInt) == Some((xs, rest))
  {
    hide PutWord, TakeInt;
    forall x: Int64, r: seq<Byte>
      ensures TakeInt(PutInt(x) + r) == Some((x, r))
    {
      WordRoundTrip(x, r);
    }
    ListRoundTrip(xs, PutInt, TakeInt, rest);
  }

  lemma FloatsRoundTrip(xs: seq<Word>, rest: seq<Byte>)
    ensures Take(Put(xs, PutPattern) + rest, |xs|, TakeWord) == Some((xs, rest))
  {
    hide PutWord, TakeWord;
    forall x: Word, r: seq<Byte>
      ensures TakeWord(PutPattern(x) + r) == Some((x, r))
    {
      WordRoundTrip(x, r);
    }
    ListRoundTrip(xs, PutPattern, TakeWord, rest);
  }

  lemma StringsRoundTrip(xs: seq<seq<Byte>>, rest: seq<Byte>)
    requires forall s :: s in xs ==> |s| < WORDS
    ensures Take(Put(xs, PutString) + rest, |xs|, TakeString) == Some((xs, rest))
  {
    hide PutString, TakeString;
    forall x, r | x in xs
      ensures TakeString(PutString(x) + r) == Some((x, r))
    {
      StringRoundTrip(x, r);
    }
    ListRoundTrip(xs, PutString, TakeString, rest);
  }

  lemma BoolsRoundTrip(xs: seq<bool>, rest: seq<Byte>)
    ensures Take(Put(xs, PutBool) + rest, |xs|, TakeBool) == Some((xs, rest))
  {
    ListRoundTrip(xs, PutBool, TakeBool, rest);
  }

  lemma StaleRoundTrip(order: seq<Entry>, stale: map<seq<Byte>, bool>, rest: seq<Byte>)
    requires Enumerates(order, stale) && |stale| < WORDS && forall s :: s in stale ==> |s| < WORDS
    ensures TakeStale(PutWord(|order|) + Put(order, PutEntry) + rest) == Some(stale)
  {
    hide PutWord, TakeWord, PutEntry, TakeEntry;
    forall x, r | x in order
      ensures TakeEntry(PutEntry(x) + r) == Some((x, r))
    {
      EntryRoundTrip(x, r);
    }
    ListRoundTrip(order, PutEntry, TakeEntry, rest);
    WordRoundTrip(|order|, Put(order, PutEntry) + rest);
    assert PutWord(|order|) + Put(order, PutEntry) + rest == PutWord(|order|) + (Put(order, PutEntry) + rest);
    EnumerationIsMap(order, stale);
  }

  /** Whatever the order in which the stale map is written, the layout is read
      back as the state it was made from; bytes after it are ignored. */
  lemma LayoutRoundTrip(st: Image, order: seq<Entry>, rest: seq<Byte>)
    requires Fits(st) && Enumerates(order, st.stale)
    ensures Parsed(Layout(st, order) + rest) == Some(st)
  {
    hide PutHeader, TakeHeader, Buffers, TakeBuffers, TakeStale, PutWord, Put;
    var d2 := PutWord(|order|) + Put(order, PutEntry) + rest;
    assert Layout(st, order) + rest == PutHeader(HeaderOf(st)) + (Buffers(st) + d2);
    HeaderRoundTrip(HeaderOf(st), Buffers(st) + d2);
    BuffersRoundTrip(st, d2);
    StaleRoundTrip(order, st.stale, rest);
  }

  // ------------------------------------------------------------- the methods

  function After<T>(xs: seq<T>, r: Option<(seq<T>, seq<Byte>)>): Option<(seq<T>, seq<Byte>)>
  {
    match r
    case None => None
    case Some(ys) => Some((xs + ys.0, ys.1))
  }

  lemma AfterNothing<T>(r: Option<(seq<T>, seq<Byte>)>)
    ensures After([], r) == r
  {
    if r.Some? {
      assert [] + r.value.0 == r.value.0;
    }
  }

  /** One more item read from the data. */
  lemma TakeStep<T>(xs: seq<T>, d: seq<Byte>, n: nat, take: seq<Byte> -> Option<(T, seq<Byte>)>)
    requires n > 0
    ensures take(d).None? ==> After(xs, Take(d, n, take)).None?
    ensures take(d).Some? ==>
              After(xs, Take(d, n, take)) == After(xs + [take(d).value.0], Take(take(d).value.1, n - 1, take))
  {
    if take(d).Some? && Take(take(d).value.1, n - 1, take).Some? {
      var x, ys := take(d).value.0, Take(take(d).value.1, n - 1, take).value.0;
      assert xs + ([x] + ys) == xs + [x] + ys;
    }
  }

  function Resized<T>(xs: seq<T>, n: nat, fill: T): (r: seq<T>)
    ensures |r| == n
  {
    if n <= |xs| then xs[..n] else xs + seq(n - |xs|, _ => fill)
  }

  lemma LayoutPieces(h: seq<Byte>, a: seq<Byte>, b: seq<Byte>, c: seq<Byte>, d: seq<Byte>)
    ensures h + a + b + c + d == h + (a + b + c + d)
  {
  }

  class StateBuffers {
    var currentTime: Word
    var intBuffer: seq<Int64>
    var floatBuffer: seq<Word>
    var stringBuffer: seq<seq<Byte>>
    var boolBuffer: seq<bool>
    var staleFlags: map<seq<Byte>, bool>

    constructor (st: Image)
      ensures State() == st
    {
      currentTime, intBuffer, floatBuffer := st.time, st.ints, st.floats;
      stringBuffer, boolBuffer, staleFlags := st.strings, st.bools, st.stale;
    }

    ghost function State(): Image
      reads this
    {
      Image(currentTime, intBuffer, floatBuffer, stringBuffer, boolBuffer, staleFlags)
    }

    method CreateCheckpoint() returns (data: seq<Byte>)
      ensures exists order :: Enumerates(order, staleFlags) && data == Layout(State(), order)
    {
      hide PutWord, PutInt, PutPattern, PutString, PutBool, PutEntry, Put, Enumerates;
      data := PutPattern(currentTime);
      data := data + PutPattern(|intBuffer| % WORDS);
      data := data + PutPattern(|floatBuffer| % WORDS);
      data := data + PutPattern(|stringBuffer| % WORDS);
      data := data + PutPattern(|boolBuffer| % WORDS);
      ghost var h := data;
      data := data + Put(intBuffer, PutInt);
      data := data + Put(floatBuffer, PutPattern);
      var strings := WriteStrings();
      data := data + strings;
      var bools := WriteBools();
      data := data + bools;
      LayoutPieces(h, Put(intBuffer, PutInt), Put(floatBuffer, PutPattern), strings, bools);
      var flags := WriteStale();
      data := data + flags;
      ghost var order :| Enumerates(order, staleFlags) && flags == PutWord(|order|) + Put(order, PutEntry);
      assert data == Layout(State(), order);
    }

    method WriteStrings() returns (data: seq<Byte>)
      ensures data == Put(stringBuffer, PutString)
    {
      hide PutString;
      data := [];
      for i := 0 to |stringBuffer|
        invariant data == Put(stringBuffer[..i], PutString)
      {
        PutAppend(stringBuffer[..i], stringBuffer[i], PutString);
        assert stringBuffer[..i + 1] == stringBuffer[..i] + [stringBuffer[i]];
        data := data + PutString(stringBuffer[i]);
      }
      assert stringBuffer[..|stringBuffer|] == stringBuffer;
    }

    method WriteBools() returns (data: seq<Byte>)
      ensures data == Put(boolBuffer, PutBool)
    {
      data := [];
      for i := 0 to |boolBuffer|
        invariant data == Put(boolBuffer[..i], PutBool)
      {
        PutAppend(boolBuffer[..i], boolBuffer[i], PutBool);
        assert boolBuffer[..i + 1] == boolBuffer[..i] + [boolBuffer[i]];
        data := data + [if boolBuffer[i] then 1 else 0];
      }
      assert boolBuffer[..|boolBuffer|] == boolBuffer;
    }

    /** The stale flags, in whatever order the map is iterated. */
    method WriteStale() returns (data: seq<Byte>)
      ensures exists order :: Enumerates(order, staleFlags) && data == PutWord(|order|) + Put(order, PutEntry)
    {
      hide PutWord, PutEntry;
      var entries: seq<Byte> := [];
      ghost var order: seq<Entry> := [];
      var rest := staleFlags.Keys;
      while rest != {}
        invariant rest <= staleFlags.Keys && |order| + |rest| == |staleFlags.Keys|
        invariant forall e :: e in order ==> e.0 in staleFlags && e.0 !in rest && staleFlags[e.0] == e.1
        invariant forall id :: id in staleFlags && id !in rest ==> (id, staleFlags[id]) in order
        invariant forall i, j :: 0 <= i < j < |order| ==> order[i].0 != order[j].0
        invariant entries == Put(order, PutEntry)
        decreases rest
      {
        var id :| id in rest;
        PutAppend(order, (id, staleFlags[id]), PutEntry);
        entries := entries + PutEntry((id, staleFlags[id]));
        order := order + [(id, staleFlags[id])];
        rest := rest - {id};
      }
      data := PutWord(|staleFlags|) + entries;
      assert Enumerates(order, staleFlags) && data == PutWord(|order|) + Put(order, PutEntry);
    }

    /** Reads the data into the state; false if the data end too early. */
    method RestoreCheckpoint(data: seq<Byte>) returns (ok: bool)
      modifies this
      ensures ok <==> Parsed(data).Some?
      ensures ok ==> State() == Parsed(data).value
    {
      hide TakeHeader, TakeBuffers, TakeStale;
      var h := TakeHeader(data);
      if h.None? {
        return false;
      }
      currentTime := h.value.0.time;
      var okay, rest := ReadBuffers(h.value.0, h.value.1);
      if !okay {
        return false;
      }
      ok := ReadStale(rest);
    }

    method ReadBuffers(h: Header, data: seq<Byte>) returns (ok: bool, rest: seq<Byte>)
      requires currentTime == h.time
      modifies `intBuffer, `floatBuffer, `stringBuffer, `boolBuffer
      ensures ok <==> TakeBuffers(h, data).Some?
      ensures ok ==> TakeBuffers(h, data) == Some((State().(stale := map[]), rest))
    {
      hide Take, TakeWord, TakeInt, TakeString, TakeBool;
      rest := data;
      var ns := Take(rest, h.ints, TakeInt);
      if ns.None? {
        return false, rest;
      }
      intBuffer := ns.value.0;
      var fs := Take(ns.value.1, h.floats, TakeWord);
      if fs.None? {
        return false, rest;
      }
      floatBuffer := fs.value.0;
      ok, rest := ReadStrings(fs.value.1, h.strings);
      if !ok {
        return;
      }
      ok, rest := ReadBools(rest, h.bools);
    }

    method ReadStrings(data: seq<Byte>, n: nat) returns (ok: bool, rest: seq<Byte>)
      modifies `stringBuffer
      ensures ok <==> Take(data, n, TakeString).Some?
      ensures ok ==> Take(data, n, TakeString) == Some((stringBuffer, rest))
    {
      hide TakeString;
      rest := data;
      stringBuffer := Resized(stringBuffer, n, []);
      AfterNothing(Take(data, n, TakeString));
      for i := 0 to n
        invariant |stringBuffer| == n
        invariant Take(data, n, TakeString) == After(stringBuffer[..i], Take(rest, n - i, TakeString))
      {
        TakeStep(stringBuffer[..i], rest, n - i, TakeString);
        var s := TakeString(rest);
        if s.None? {
          return false, rest;
        }
        ghost var read := stringBuffer[..i];
        stringBuffer := stringBuffer[i := s.value.0];
        assert stringBuffer[..i + 1] == read + [s.value.0];
        rest := s.value.1;
      }
      assert stringBuffer[..n] + [] == stringBuffer;
      ok := true;
    }

    method ReadBools(data: seq<Byte>, n: nat) returns (ok: bool, rest: seq<Byte>)
      modifies `boolBuffer
      ensures ok <==> Take(data, n, TakeBool).Some?
      ensures ok ==> Take(data, n, TakeBool) == Some((boolBuffer, rest))
    {
      hide TakeBool;
      rest := data;
      boolBuffer := Resized(boolBuffer, n, false);
      AfterNothing(Take(data, n, TakeBool));
      for i := 0 to n
        invariant |boolBuffer| == n
        invariant Take(data, n, TakeBool) == After(boolBuffer[..i], Take(rest, n - i, TakeBool))
      {
        TakeStep(boolBuffer[..i], rest, n - i, TakeBool);
        var b := TakeBool(rest);
        if b.None? {
          return false, rest;
        }
        ghost var read := boolBuffer[..i];
        boolBuffer := boolBuffer[i := b.value.0];
        assert boolBuffer[..i + 1] == read + [b.value.0];
        rest := b.value.1;
      }
      assert boolBuffer[..n] + [] == boolBuffer;
      ok := true;
    }

    method ReadStale(data: seq<Byte>) returns (ok: bool)
      modifies `staleFlags
      ensures ok <==> TakeStale(data).Some?
      ensures ok ==> TakeStale(data) == Some(staleFlags)
    {
      hide TakeEntry, TakeWord;
      var count := TakeWord(data);
      if count.None? {
        return false;
      }
      var n, rest := count.value.0, count.value.1;
      staleFlags := map[];
      ghost var entries: seq<Entry> := [];
      AfterNothing(Take(rest, n, TakeEntry));
      for i := 0 to n
        invariant |entries| == i && staleFlags == FromEntries(entries)
        invariant Take(count.value.1, n, TakeEntry) == After(entries, Take(rest, n - i, TakeEntry))
      {
        TakeStep(entries, rest, n - i, TakeEntry);
        var e := TakeEntry(rest);
        if e.None? {
          return false;
        }
        assert (entries + [e.value.0])[..i] == entries;
        staleFlags := staleFlags[e.value.0.0 := e.value.0.1];
        entries := entries + [e.value.0];
        rest := e.value.1;
      }
      assert entries + [] == entries;
      ok := true;
    }
  }

  /** Saving one state as base64 text and loading the text into another state,
      whatever that one held, reproduces the first. */
  method SaveAndLoad(sender: StateBuffers, receiver: StateBuffers) returns (ok: bool)
    requires Fits(sender.State())
    modifies receiver
    ensures ok && receiver.State() == old(sender.State())
  {
    hide Layout, Encoded, Decoded, Parsed, Enumerates;
    var stateData := sender.CreateCheckpoint();
    ghost var order :| Enumerates(order, sender.staleFlags) && stateData == Layout(sender.State(), order);
    LayoutRoundTrip(sender.State(), order, []);
    assert stateData + [] == stateData;
    var text := Encode(stateData);
    DecodeEncode(stateData);
    var decoded := Decode(text);
    ok := receiver.RestoreCheckpoint(decoded.bytes);
  }
}
