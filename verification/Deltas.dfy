/**
 The change log of one private ladder side: per price an absolute quantity, the change since the
 last clear, and an intrusive list through the prices changed since then. Clients that apply the
 published windows one after the other hold the absolute quantities.
 */
module Deltas {
  import opened Common
  import opened Market

  const END: nat := 0xFFFF_FFFF_FFFF_FFFF
  const INT64_MIN: int := -0x8000_0000_0000_0000

  datatype Entry = Entry(next: nat, dirty: bool, delta: int, qty: nat)

  datatype Side = Side(entries: map<nat, Entry>, head: nat)

  datatype Delta = Delta(price: nat, delta: int, qty: nat)

  const NEW_SIDE: Side := Side(map[], END)

  // ------------------------------------------------------------ one change

  function EntryAt(s: Side, p: nat): Entry { if p in s.entries then s.entries[p] else Entry(0, false, 0, 0) }

  function NowQty(s: Side, p: nat): nat { EntryAt(s, p).qty }

  /** The change or the quantity would leave its 64-bit range. */
  predicate Overflows(s: Side, p: nat, d: int) {
    var e := EntryAt(s, p);
    || e.delta + d > INT64_MAX || e.delta + d < INT64_MIN
    || e.qty + d < 0 || e.qty + d > END
  }

  /** Records a change. A refused change may leave an empty entry behind. */
  function Put(s: Side, p: nat, d: int): (Side, bool) {
    if p == END then (s, false)
    else if d == 0 then (s, true)
    else
      var e := EntryAt(s, p);
      if Overflows(s, p, d) then (s.(entries := s.entries[p := e]), false)
      else
        var e' := e.(delta := e.delta + d, qty := e.qty + d);
        if e.dirty then (s.(entries := s.entries[p := e']), true)
        else (Side(s.entries[p := e'.(next := s.head, dirty := true)], p), true)
  }

  // ---------------------------------------------------------- the dirty list

  function Front(dirty: seq<nat>, i: nat): nat { if i < |dirty| then dirty[i] else END }

  ghost predicate ListAt(s: Side, dirty: seq<nat>, i: nat) {
    i < |dirty| && dirty[i] in s.entries && s.entries[dirty[i]].dirty && s.entries[dirty[i]].next == Front(dirty, i + 1)
  }

  ghost predicate AmountAt(s: Side, dirty: seq<nat>, base: map<nat, nat>, p: nat) {
    && EntryAt(s, p).delta == NowQty(s, p) - At(base, p) && NowQty(s, p) <= END
    && (EntryAt(s, p).dirty <==> p in dirty)
    && (p !in dirty ==> EntryAt(s, p).delta == 0)
    && (p in s.entries && p !in dirty ==> NowQty(s, p) > 0)
  }

  /**
   The list runs exactly through `dirty`, each price once, and every change is the quantity now
   minus the quantity `base` at the last clear.
   */
  ghost predicate Tracks(s: Side, dirty: seq<nat>, base: map<nat, nat>) {
    && Distinct(dirty) && END !in dirty && s.head == Front(dirty, 0)
    && (forall i :: 0 <= i < |dirty| ==> ListAt(s, dirty, i))
    && (forall p: nat :: AmountAt(s, dirty, base, p))
  }

  function Touched(dirty: seq<nat>, p: nat, d: int): seq<nat> { if d == 0 || p in dirty then dirty else [p] + dirty }

  lemma PutTracks(s: Side, dirty: seq<nat>, base: map<nat, nat>, p: nat, d: int)
    requires Tracks(s, dirty, base) && Put(s, p, d).1
    ensures Tracks(Put(s, p, d).0, Touched(dirty, p, d), base)
    ensures forall r: nat :: NowQty(Put(s, p, d).0, r) == NowQty(s, r) + if r == p then d else 0
  {
    var t, dirty' := Put(s, p, d).0, Touched(dirty, p, d);
    assert AmountAt(s, dirty, base, p);
    if d != 0 {
      forall i | 0 <= i < |dirty'| ensures ListAt(t, dirty', i) {
        if p in dirty { assert ListAt(s, dirty, i); }
        else if i > 0 { assert ListAt(s, dirty, i - 1); }
      }
      forall r: nat ensures AmountAt(t, dirty', base, r) {
        assert AmountAt(s, dirty, base, r);
      }
    }
  }

  /** A change that the quantity can bear is refused only when a 64-bit range is left upwards or by the window. */
  lemma PutRefuses(s: Side, p: nat, d: int)
    requires p != END && NowQty(s, p) + d >= 0
    ensures !Put(s, p, d).1 <==>
        d != 0 && (NowQty(s, p) + d > END || EntryAt(s, p).delta + d > INT64_MAX || EntryAt(s, p).delta + d < INT64_MIN)
  {
  }

  // --------------------------------------------------------- one window

  function Window(s: Side, dirty: seq<nat>): seq<Delta> {
    seq(|dirty|, i requires 0 <= i < |dirty| => Delta(dirty[i], EntryAt(s, dirty[i]).delta, NowQty(s, dirty[i])))
  }

  /** The changed prices in list order, or nothing at all when there are more than fit. */
  method CopyDeltas(s: Side, max: nat, ghost dirty: seq<nat>, ghost base: map<nat, nat>) returns (r: Option<seq<Delta>>)
    requires Tracks(s, dirty, base)
    ensures r == if |dirty| > max then None else Some(Window(s, dirty))
  {
    var out: seq<Delta>, price := [], s.head;
    ghost var i := 0;
    while price != END
      invariant 0 <= i <= |dirty| && price == Front(dirty, i) && |out| == i <= max
      invariant out == Window(s, dirty)[..i]
      decreases |dirty| - i
    {
      if |out| == max { return None; }
      assert ListAt(s, dirty, i);
      out := out + [Delta(price, s.entries[price].delta, s.entries[price].qty)];
      price := s.entries[price].next;
      i := i + 1;
    }
    assert Window(s, dirty)[..|dirty|] == Window(s, dirty);
    return Some(out);
  }

  function Fresh(e: Entry): Entry { e.(delta := 0, dirty := false) }

  /** After a clear: nothing is dirty, and prices with nothing left are gone. */
  function Cleared(s: Side): Side {
    Side(map p | p in s.entries && !(s.entries[p].dirty && s.entries[p].qty == 0) :: if s.entries[p].dirty
        then Fresh(s.entries[p]) else s.entries[p], END)
  }

  function Quantities(s: Side): map<nat, nat> { map p | p in s.entries :: s.entries[p].qty }

  lemma ClearTracks(s: Side, dirty: seq<nat>, base: map<nat, nat>)
    requires Tracks(s, dirty, base)
    ensures Tracks(Cleared(s), [], Quantities(s)) && forall p: nat ::
        NowQty(Cleared(s), p) == NowQty(s, p) == At(Quantities(s), p)
  {
    forall p: nat ensures AmountAt(Cleared(s), [], Quantities(s), p) && NowQty(Cleared(s), p) == NowQty(s, p) {
      assert AmountAt(s, dirty, base, p);
    }
  }

  /** The first `i` dirty prices have been cleared. */
  ghost predicate PartlyCleared(s: Side, m: map<nat, Entry>, dirty: seq<nat>, i: nat) {
    && i <= |dirty|
    && (forall p :: p in m ==> p in s.entries)
    && (forall p :: p in s.entries && p !in dirty[..i] ==> p in m && m[p] == s.entries[p])
    && (forall p :: p in s.entries && p in dirty[..i] ==>
       if s.entries[p].qty == 0 then p !in m else p in m && m[p] == Fresh(s.entries[p]))
  }

  /** Walks the list and clears every entry on it. */
  method ClearDeltas(s: Side, ghost dirty: seq<nat>, ghost base: map<nat, nat>) returns (t: Side)
    requires Tracks(s, dirty, base)
    ensures t == Cleared(s) && Tracks(t, [], Quantities(s))
  {
    var m, price := s.entries, s.head;
    ghost var i := 0;
    while price != END
      invariant 0 <= i <= |dirty| && price == Front(dirty, i) && PartlyCleared(s, m, dirty, i)
      decreases |dirty| - i
    {
      assert ListAt(s, dirty, i);
      assert price !in dirty[..i];
      var e := m[price];
      assert dirty[..i + 1] == dirty[..i] + [price];
      m := m[price := Fresh(e)];
      if e.qty == 0 { m := m - {price}; }
      price := e.next;
      i := i + 1;
    }
    t := Side(m, END);
    assert dirty[..i] == dirty;
    forall p | p in s.entries ensures s.entries[p].dirty <==> p in dirty { assert AmountAt(s, dirty, base, p); }
    assert t.entries == Cleared(s).entries;
    ClearTracks(s, dirty, base);
  }

  // ------------------------------------------------------------- clients

  function Held(copy: map<nat, int>, p: nat): int { if p in copy then copy[p] else 0 }

  /** A client adds each published change to what it holds. */
  function Apply(copy: map<nat, int>, window: seq<Delta>): map<nat, int>
    decreases |window|
  {
    if window == [] then copy
    else
      var w := window[|window| - 1];
      var before := Apply(copy, window[..|window| - 1]);
      before[w.price := Held(before, w.price) + w.delta]
  }

  lemma {:induction false} ApplyFirst(copy: map<nat, int>, s: Side, dirty: seq<nat>, base: map<nat, nat>, n: nat)
    requires Tracks(s, dirty, base) && n <= |dirty| && forall p: nat :: Held(copy, p) == At(base, p)
    ensures forall p: nat :: Held(Apply(copy, Window(s, dirty)[..n]), p) == if p in dirty[..n] then NowQty(s, p)
        else At(base, p)
    decreases n
  {
    hide Tracks;
    var w := Window(s, dirty);
    if n > 0 {
      ApplyFirst(copy, s, dirty, base, n - 1);
      assert w[..n][..n - 1] == w[..n - 1] && dirty[..n] == dirty[..n - 1] + [dirty[n - 1]];
      DirtyAmount(s, dirty, base, n - 1);
    }
  }

  lemma DirtyAmount(s: Side, dirty: seq<nat>, base: map<nat, nat>, i: nat)
    requires Tracks(s, dirty, base) && i < |dirty|
    ensures dirty[i] !in dirty[..i] && EntryAt(s, dirty[i]).delta == NowQty(s, dirty[i]) - At(base, dirty[i])
  {
    assert AmountAt(s, dirty, base, dirty[i]);
  }

  /** A client that held the quantities of the last clear holds today's after applying the window. */
  lemma WindowApplied(copy: map<nat, int>, s: Side, dirty: seq<nat>, base: map<nat, nat>)
    requires Tracks(s, dirty, base) && forall p: nat :: Held(copy, p) == At(base, p)
    ensures forall p: nat :: Held(Apply(copy, Window(s, dirty)), p) == NowQty(s, p)
  {
    ApplyFirst(copy, s, dirty, base, |dirty|);
    assert Window(s, dirty)[..|dirty|] == Window(s, dirty) && dirty[..|dirty|] == dirty;
    forall p: nat | p !in dirty ensures At(base, p) == NowQty(s, p) { assert AmountAt(s, dirty, base, p); }
  }

  /** A side, its client, and what the invariants speak of. */
  datatype Feed = Feed(side: Side, client: map<nat, int>, dirty: seq<nat>, base: map<nat, nat>)

  datatype Event = Change(price: nat, d: int) | Publish

  function Next(f: Feed, ev: Event): Feed {
    match ev
    case Change(p, d) => f.(side := Put(f.side, p, d).0, dirty := Touched(f.dirty, p, d))
    case Publish => Feed(Cleared(f.side), Apply(f.client, Window(f.side, f.dirty)), [], Quantities(f.side))
  }

  function After(f: Feed, evs: seq<Event>): Feed
    decreases |evs|
  {
    if evs == [] then f else After(Next(f, evs[0]), evs[1..])
  }

  predicate Accepted(f: Feed, evs: seq<Event>)
    decreases |evs|
  {
    evs == [] || ((evs[0].Change? ==> Put(f.side, evs[0].price, evs[0].d).1) && Accepted(Next(f, evs[0]), evs[1..]))
  }

  ghost predicate InStep(f: Feed) {
    Tracks(f.side, f.dirty, f.base) && forall p: nat :: Held(f.client, p) == At(f.base, p)
  }

  /** The sum of the changes made at a price. */
  function Sum(evs: seq<Event>, p: nat): int
    decreases |evs|
  {
    if evs == [] then 0 else (if evs[0].Change? && evs[0].price == p then evs[0].d else 0) + Sum(evs[1..], p)
  }

  /**
   Over any run of changes and publications: the list and the changes stay exact, the client always
   holds the quantities of the last publication, and quantities are the sums of all changes.
   */
  lemma {:induction false} ClientFollows(f: Feed, evs: seq<Event>)
    requires InStep(f) && Accepted(f, evs)
    ensures InStep(After(f, evs))
    ensures forall p: nat :: NowQty(After(f, evs).side, p) == NowQty(f.side, p) + Sum(evs, p)
    ensures evs != [] && evs[|evs| - 1].Publish? ==>
        forall p: nat :: Held(After(f, evs).client, p) == NowQty(After(f, evs).side, p)
    decreases |evs|
  {
    hide Tracks, Put, Window, Apply, NowQty, Cleared, Quantities, Touched;
    if evs != [] {
      var g := Next(f, evs[0]);
      StepFollows(f, evs[0]);
      ClientFollows(g, evs[1..]);
      if |evs| > 1 { assert evs[1..][|evs| - 2] == evs[|evs| - 1]; }
    }
  }

  lemma StepFollows(f: Feed, ev: Event)
    requires InStep(f) && (ev.Change? ==> Put(f.side, ev.price, ev.d).1)
    ensures InStep(Next(f, ev))
    ensures forall p: nat :: NowQty(Next(f, ev).side, p) == NowQty(f.side, p) + if ev.Change? && ev.price == p then ev.d
        else 0
    ensures ev.Publish? ==> forall p: nat :: Held(Next(f, ev).client, p) == NowQty(Next(f, ev).side, p)
  {
    hide Tracks, Put, Window, Apply, NowQty, Cleared, Quantities, Touched;
    match ev {
      case Change(p, d) => PutTracks(f.side, f.dirty, f.base, p, d);
      case Publish =>
        WindowApplied(f.client, f.side, f.dirty, f.base);
        ClearTracks(f.side, f.dirty, f.base);
    }
  }
}
