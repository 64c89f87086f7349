/**
 Session data between the daemon and a plugin process: the sender cuts the bytes
 into pages, the receiver is told the size and puts the pages together again.
 */
module BlobIO {

  type Bytes = seq<bv8>

  /** SIGNON_IPC_BUFFER_PAGE_SIZE. */
  const PAGE_SIZE := 16384

  function Pages(bytes: Bytes): seq<Bytes> {
    if bytes == [] then []
    else if |bytes| <= PAGE_SIZE then [bytes]
    else [bytes[..PAGE_SIZE]] + Pages(bytes[PAGE_SIZE..])
  }

  function Concat(pages: seq<Bytes>): Bytes {
    if pages == [] then [] else Concat(pages[..|pages| - 1]) + pages[|pages| - 1]
  }

  lemma {:induction false} ConcatCons(page: Bytes, pages: seq<Bytes>)
    ensures Concat([page] + pages) == page + Concat(pages)
  {
    var all := [page] + pages;
    if pages == [] {
      assert all[..0] == [];
      assert Concat(all) == [] + page;
    } else {
      assert all[..|all| - 1] == [page] + pages[..|pages| - 1];
      ConcatCons(page, pages[..|pages| - 1]);
    }
  }

  /** The pages are non-empty, all of the page size but the last, as few as can be,
      and together the bytes. */
  lemma {:induction false} PagesAreRight(bytes: Bytes)
    ensures Concat(Pages(bytes)) == bytes
    ensures |Pages(bytes)| == (|bytes| + 16383) / 16384
    ensures forall i :: 0 <= i < |Pages(bytes)| ==> 0 < |Pages(bytes)[i]| <= 16384
    ensures forall i :: 0 <= i < |Pages(bytes)| - 1 ==> |Pages(bytes)[i]| == 16384
  {
    if bytes == [] {
    } else if |bytes| <= PAGE_SIZE {
      ConcatCons(bytes, []);
      assert [bytes] + [] == [bytes];
    } else {
      var rest := bytes[PAGE_SIZE..];
      PagesAreRight(rest);
      ConcatCons(bytes[..PAGE_SIZE], Pages(rest));
      assert bytes[..PAGE_SIZE] + rest == bytes;
      assert Pages(bytes) == [bytes[..PAGE_SIZE]] + Pages(rest);
      assert |bytes| + PAGE_SIZE - 1 == PAGE_SIZE + (|rest| + PAGE_SIZE - 1);
    }
  }

  // ---------------------------------------------------------------- receiving

  datatype Output = DataReceived(bytes: Bytes) | Error

  datatype Receiver = Receiver(buffer: Bytes, size: int, notifying: bool, out: seq<Output>)

  function Start(r: Receiver, size: int): Receiver {
    r.(buffer := [], size := size, notifying := size > PAGE_SIZE || r.notifying)
  }

  /** readBlob, given what the stream yields: an empty array when there is nothing. */
  function Read(r: Receiver, fraction: Bytes): Receiver {
    var buffer := r.buffer + fraction;
    if fraction == [] && |buffer| < r.size then
      r.(buffer := buffer, notifying := false, out := r.out + [Error])
    else if |buffer| == r.size then
      r.(buffer := buffer, notifying := r.size <= PAGE_SIZE && r.notifying, out := r.out + [DataReceived(buffer)])
    else r.(buffer := buffer)
  }

  function ReadAll(r: Receiver, fractions: seq<Bytes>): Receiver {
    if fractions == [] then r else Read(ReadAll(r, fractions[..|fractions| - 1]), fractions[|fractions| - 1])
  }

  /** receiveData reads at once, so even without pages there is one read. */
  function Fed(pages: seq<Bytes>): seq<Bytes> {
    if pages == [] then [[]] else pages
  }

  lemma {:induction false} ConcatGrows(pages: seq<Bytes>, k: nat)
    requires k < |pages| && forall i :: 0 <= i < |pages| ==> pages[i] != []
    ensures |Concat(pages[..k])| < |Concat(pages)|
    decreases |pages|
  {
    var n := |pages| - 1;
    if k < n {
      ConcatGrows(pages[..n], k);
      assert pages[..n][..k] == pages[..k];
    }
  }

  /** Before the last fraction nothing comes out, and the notification is on
      exactly for data of more than one page. */
  lemma {:induction false} Partway(r: Receiver, bytes: Bytes, fractions: seq<Bytes>, k: nat)
    requires !r.notifying && k < |fractions|
    requires Concat(fractions) == bytes && forall i :: 0 <= i < |fractions| ==> fractions[i] != []
    ensures ReadAll(Start(r, |bytes|), fractions[..k])
         == Receiver(Concat(fractions[..k]), |bytes|, |bytes| > PAGE_SIZE, r.out)
  {
    if k > 0 {
      Partway(r, bytes, fractions, k - 1);
      assert fractions[..k][..k - 1] == fractions[..k - 1];
      ConcatGrows(fractions, k);
    }
  }

  /** Whatever size was announced, and whatever non-empty fractions come: nothing comes
      out unless the fractions reach the size exactly, and then just the bytes so far,
      once. Fractions that jump over it are never delivered. */
  lemma {:induction false} ReceivesExactly(r: Receiver, size: nat, fractions: seq<Bytes>)
    requires !r.notifying && forall i :: 0 <= i < |fractions| ==> fractions[i] != []
    ensures var got := ReadAll(Start(r, size), fractions);
            && got.buffer == Concat(fractions) && got.size == size
            && (if Reached(fractions, size)
                then exists k :: 0 < k <= |fractions| && |Concat(fractions[..k])| == size
                       && got.out == r.out + [DataReceived(Concat(fractions[..k]))] && !got.notifying
                else got.out == r.out && got.notifying == (size > PAGE_SIZE))
  {
    if fractions != [] {
      var n := |fractions| - 1;
      ReceivesExactly(r, size, fractions[..n]);
      assert fractions == fractions[..n] + [fractions[n]];
      assert forall k :: 0 <= k <= n ==> fractions[..n][..k] == fractions[..k];
      assert fractions[..n + 1] == fractions;
      if Reached(fractions[..n], size) {
        var k :| 0 < k <= n && |Concat(fractions[..n][..k])| == size;
        assert |Concat(fractions[..k])| == size;
        ConcatGrows(fractions, k);
      } else if |Concat(fractions)| == size {
        assert |Concat(fractions[..n + 1])| == size;
      }
    }
  }

  predicate Reached(fractions: seq<Bytes>, size: nat) {
    exists k :: 0 < k <= |fractions| && |Concat(fractions[..k])| == size
  }

  /** A stream that runs dry before the announced size is reached reports one error,
      delivers nothing, and ends with the notification off. */
  lemma DryStreamFails(r: Receiver, size: nat, fractions: seq<Bytes>)
    requires !r.notifying && |Concat(fractions)| < size
    requires forall i :: 0 <= i < |fractions| ==> fractions[i] != []
    ensures ReadAll(Start(r, size), fractions + [[]])
         == Receiver(Concat(fractions), size, false, r.out + [Error])
  {
    assert fractions[..|fractions|] == fractions;
    ReceivesExactly(r, size, fractions);
    forall k | 0 < k < |fractions| ensures |Concat(fractions[..k])| < size {
      ConcatGrows(fractions, k);
    }
    assert (fractions + [[]])[..|fractions|] == fractions;
    assert Concat(fractions) + [] == Concat(fractions);
  }

  /** However the bytes are cut into non-empty fractions, the receiver delivers them
      once, never reports an error, and ends with the notification off. */
  lemma ReceivesWhole(r: Receiver, bytes: Bytes, fractions: seq<Bytes>)
    requires !r.notifying && fractions != []
    requires Concat(fractions) == bytes && forall i :: 0 <= i < |fractions| ==> fractions[i] != []
    ensures ReadAll(Start(r, |bytes|), fractions)
         == Receiver(bytes, |bytes|, false, r.out + [DataReceived(bytes)])
  {
    Partway(r, bytes, fractions, |fractions| - 1);
  }

  /** The round trip, for every byte array, the empty one included. */
  lemma RoundTrip(r: Receiver, bytes: Bytes)
    requires !r.notifying
    ensures ReadAll(Start(r, |bytes|), Fed(Pages(bytes)))
         == Receiver(bytes, |bytes|, false, r.out + [DataReceived(bytes)])
    ensures forall k | 0 <= k < |Pages(bytes)| ::
              ReadAll(Start(r, |bytes|), Pages(bytes)[..k])
              == Receiver(Concat(Pages(bytes)[..k]), |bytes|, |bytes| > PAGE_SIZE, r.out)
  {
    PagesAreRight(bytes);
    if bytes == [] {
      assert Fed(Pages(bytes))[..0] == [];
      assert ReadAll(Start(r, 0), [[]]) == Read(Start(r, 0), []);
    } else {
      ReceivesWhole(r, bytes, Pages(bytes));
      forall k | 0 <= k < |Pages(bytes)|
        ensures ReadAll(Start(r, |bytes|), Pages(bytes)[..k])
             == Receiver(Concat(Pages(bytes)[..k]), |bytes|, |bytes| > PAGE_SIZE, r.out)
      {
        Partway(r, bytes, Pages(bytes), k);
      }
    }
  }

  class BlobIOHandler {
    var blobBuffer: Bytes
    var blobSize: int
    var notifying: bool
    ghost var out: seq<Output>

    ghost function View(): Receiver
      reads this
    {
      Receiver(blobBuffer, blobSize, notifying, out)
    }

    constructor ()
      ensures View() == Receiver([], -1, false, [])
    {
      blobBuffer, blobSize, notifying, out := [], -1, false, [];
    }

    static method PageByteArray(array_: Bytes) returns (dataPages: seq<Bytes>)
      ensures dataPages == Pages(array_)
    {
      dataPages := [];
      var pos := 0;
      while pos < |array_|
        invariant 0 <= pos <= |array_|
        invariant dataPages + Pages(array_[pos..]) == Pages(array_)
      {
        var end := if pos + PAGE_SIZE < |array_| then pos + PAGE_SIZE else |array_|;
        var page := array_[pos..end];
        var rest := array_[pos..];
        assert page == rest[..end - pos] && array_[end..] == rest[end - pos..];
        if |rest| <= PAGE_SIZE {
          assert page == rest && array_[end..] == [];
        }
        assert Pages(rest) == [page] + Pages(array_[end..]);
        dataPages := dataPages + [page];
        pos := end;
      }
    }

    method ReadBlob(fraction: Bytes)
      modifies this
      ensures View() == Read(old(View()), fraction)
    {
      blobBuffer := blobBuffer + fraction;
      if |fraction| == 0 && |blobBuffer| < blobSize {
        notifying := false;
        out := out + [Error];
        return;
      }
      if |blobBuffer| == blobSize {
        if blobSize > PAGE_SIZE {
          notifying := false;
        }
        out := out + [DataReceived(blobBuffer)];
      }
    }

    /** fraction: what the stream has when the transfer starts. */
    method ReceiveData(expectedDataSize: int, fraction: Bytes)
      modifies this
      ensures View() == Read(Start(old(View()), expectedDataSize), fraction)
    {
      blobBuffer := [];
      blobSize := expectedDataSize;
      if blobSize > PAGE_SIZE {
        notifying := true;
      }
      ReadBlob(fraction);
    }

    /** A whole transfer: the sender's pages, one read each. */
    method Transfer(bytes: Bytes)
      requires !notifying
      modifies this
      ensures View() == Receiver(bytes, |bytes|, false, old(out) + [DataReceived(bytes)])
    {
      var dataPages := PageByteArray(bytes);
      var pages := Fed(dataPages);
      ghost var r := View();
      ReceiveData(|bytes|, pages[0]);
      assert pages[..1][..0] == [];
      for i := 1 to |pages|
        invariant View() == ReadAll(Start(r, |bytes|), pages[..i])
      {
        assert pages[..i + 1][..i] == pages[..i];
        ReadBlob(pages[i]);
      }
      assert pages[..|pages|] == pages;
      RoundTrip(r, bytes);
    }
  }
}
