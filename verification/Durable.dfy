/**
 The log from end to end: what the engine logged in a run is encoded, framed and flushed, read back
 through the buffered reader, decoded and replayed into a new book, which is the live one.
 */
module Durable {
  import opened Common
  import opened Links
  import opened WalFormat
  import opened WalParse
  import opened WalReader
  import opened WalWriter
  import opened WalCodec
  import opened OrderBooks
  import opened Recovery
  import B = Book
  import R = Replay

  ghost predicate Same(recs: seq<Rec>, log: seq<B.Record>) { DecodeAll(recs) == Somes(log) }

  /** The records that recovery acts on. */
  method DecodeLog(recs: seq<Rec>, ghost log: seq<B.Record>) returns (r: seq<B.Record>)
    requires Same(recs, log)
    ensures r == log
  {
    hide Decode;
    r := [];
    var i := 0;
    assert |DecodeAll(recs)| == |Somes(log)|;
    while i < |recs|
      invariant 0 <= i <= |recs| == |log| && r == log[..i]
    {
      assert DecodeAll(recs)[i] == Somes(log)[i];
      var d := Decode(recs[i].tag, recs[i].data);
      r := r + [d.value];
      i := i + 1;
    }
  }

  /**
   Starting again from the files of a run's log gives the live book, wherever the gaps on disk are
   fine and every trade has a taker with an id.
   */
  method Load(w: Writer, c: R.Config, ghost ops: seq<R.Op>) returns (book: OrderBook, ok: bool)
    requires 0 < c.slots <= NULL && R.RunOk(c, B.EmptyBook(c.products), ops)
    requires w.Valid() && w.pending == [] && AllFine(w.format, w.disk) &&
        Same(w.Logged(), R.Run(c, B.EmptyBook(c.products), ops).log)
    ensures ok == R.Traceable(R.Run(c, B.EmptyBook(c.products), ops).log) && fresh(book)
    ensures ok ==> book.Valid() && book.Book() == R.Run(c, B.EmptyBook(c.products), ops).book
  {
    hide R.Traceable, R.Run, R.RunOk, B.Wf, AllFine, Same, ParseFiles, Images, DiskOk, Everything, Frames, RecsOk;
    ghost var log := R.Run(c, B.EmptyBook(c.products), ops).log;
    assert w.Logged() == Everything(w.disk);
    DiskParses(w.format, w.disk, 0);
    var p := ReadAll(w.format, w.files);
    var records := DecodeLog(p.recs, log);
    book, ok := Restart(c, records, ops);
  }

  lemma {:induction false} InEverything(disk: seq<seq<seq<Rec>>>, k: nat, i: nat, j: nat)
    requires k < |disk| && i < |disk[k]| && j < |disk[k][i]|
    ensures disk[k][i][j] in Everything(disk)
    decreases |disk|
  {
    if k == 0 { InFlat(disk[0], i, j); } else { InEverything(disk[1..], k - 1, i, j); }
  }

  lemma {:induction false} InFlat(bs: seq<seq<Rec>>, i: nat, j: nat)
    requires i < |bs| && j < |bs[i]|
    ensures bs[i][j] in Flat(bs)
  {
    if i > 0 { InFlat(bs[1..], i - 1, j); }
  }

  /** An order's own data comes in whole words. */
  predicate Even(m: Meta) { (|m.user| + |m.aux|) % 8 == 0 }

  lemma EvenData(r: B.Record, m: Meta)
    requires Even(m)
    ensures |Encode(r, m)| % 8 == 0
  {
  }

  lemma EvenWords(disk: seq<seq<seq<Rec>>>, log: seq<B.Record>, metas: seq<Meta>)
    requires Carries(Everything(disk), 0, log, metas, |log|) && forall i :: 0 <= i < |metas| ==> Even(metas[i])
    ensures WholeWords(disk)
  {
    hide Encode, Even, Everything;
    var recs := Everything(disk);
    forall i | 0 <= i < |recs| ensures |recs[i].data| % 8 == 0 {
      assert recs[0 + i].data == Encode(log[i], metas[i]);
      EvenData(log[i], metas[i]);
    }
    forall k, i, j | 0 <= k < |disk| && 0 <= i < |disk[k]| && 0 <= j < |disk[k][i]|
        ensures |disk[k][i][j].data| % 8 == 0 {
      InEverything(disk, k, i, j);
    }
  }

  /**
   Without checksums and with order data in whole words, every run of the engine whose log could be
   appended is restored exactly, book, queues, volumes and deactivated orders, if and only if every
   trade in it has a taker with an id.
   */
  method SaveAndLoad(w: Writer, c: R.Config, log: seq<B.Record>, metas: seq<Meta>, ghost ops: seq<R.Op>)
                     returns (saved: bool, restored: bool, book: OrderBook?)
    requires 0 < c.slots <= NULL && R.RunOk(c, B.EmptyBook(c.products), ops) &&
        log == R.Run(c, B.EmptyBook(c.products), ops).log
    requires w.Valid() && !w.failed && w.Logged() == [] && !w.format.crc
    requires |metas| == |log| && forall i :: 0 <= i < |log| ==> Storable(log[i], metas[i]) && Even(metas[i])
    modifies w, w.buffer
    ensures saved == old(Takes(w, log, metas)) && restored == (saved && R.Traceable(log))
    ensures restored ==> book != null && fresh(book) && book.Valid() &&
                         book.Book() == R.Run(c, B.EmptyBook(c.products), ops).book
  {
    hide R.Traceable, R.Run, R.RunOk, B.Wf, AllFine, Images, DiskOk, Everything, Frames, RecsOk, Storable, Carries,
         Even, WholeWords, Takes;
    var p;
    saved, p := WriteAndRead(w, log, metas);
    book, restored := null, false;
    if saved {
      assert w.Logged() == Everything(w.disk);
      EvenWords(w.disk, log, metas);
      AlignedDisk(w.format, w.disk);
      book, restored := Load(w, c, ops);
    }
  }
}
