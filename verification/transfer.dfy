/** File transfer: the client's chunker, the server's reassembler, and the way back. */
module Transfer {
  import opened Common

  type Data = seq<Byte>
  type Disk = map<string, Data>

  const MAX_SIZE := 0x8000_0000         // 1 << 31
  const BUFFER_SIZE := 2 * 1024 * 1024

  function Flatten(chunks: seq<Data>): Data {
    if chunks == [] then [] else Flatten(chunks[..|chunks| - 1]) + chunks[|chunks| - 1]
  }

  lemma FlattenEmpty(chunks: seq<Data>)
    ensures Flatten(chunks[..0]) == []
  {
  }

  lemma FlattenSnoc(chunks: seq<Data>, n: nat)
    requires n < |chunks|
    ensures Flatten(chunks[..n + 1]) == Flatten(chunks[..n]) + chunks[n]
  {
    assert chunks[..n + 1][..n] == chunks[..n];
  }

  lemma {:induction false} FlattenGrows(chunks: seq<Data>, n: nat)
    requires n <= |chunks|
    ensures |Flatten(chunks[..n])| <= |Flatten(chunks)|
    decreases |chunks|
  {
    if n == |chunks| {
      assert chunks[..n] == chunks;
    } else {
      var front := chunks[..|chunks| - 1];
      assert front[..n] == chunks[..n];
      FlattenGrows(front, n);
    }
  }

  // ---------------------------------------------------------------- messages

  /** What Recv on an upload stream returns; a message without chunk data is Info. */
  datatype Recv = Info(path: string) | Chunk(data: Data) | Eof | RecvError

  /** One turn of the server's loop: its context, the message, and whether the write works. */
  datatype Turn = Turn(canceled: bool, recv: Recv, writeOk: bool)

  /** The chunks before anything else arrives. */
  function Chunks(turns: seq<Turn>): (cs: seq<Data>)
    ensures |cs| <= |turns|
    ensures forall i :: 0 <= i < |cs| ==> turns[i].recv == Chunk(cs[i])
    ensures |cs| < |turns| ==> !turns[|cs|].recv.Chunk?
  {
    if turns == [] || !turns[0].recv.Chunk? then [] else [turns[0].recv.data] + Chunks(turns[1..])
  }

  /** The stream ends after its chunks, with nothing going wrong on the way. */
  ghost predicate Clean(turns: seq<Turn>) {
    var n := |Chunks(turns)|;
    && n < |turns| && turns[n].recv.Eof?
    && (forall i :: 0 <= i <= n ==> !turns[i].canceled)
    && (forall i :: 0 <= i < n ==> turns[i].writeOk)
  }

  /** The n-th turn is the end, and before it come chunks only, each taken and written. */
  ghost predicate CleanUpTo(turns: seq<Turn>, n: nat) {
    && n < |turns| && turns[n].recv.Eof? && !turns[n].canceled
    && forall i :: 0 <= i < n ==> turns[i].recv.Chunk? && !turns[i].canceled && turns[i].writeOk
  }

  lemma CleanExact(turns: seq<Turn>)
    ensures Clean(turns) <==> exists n :: CleanUpTo(turns, n)
  {
    if n :| CleanUpTo(turns, n) {
      assert n == |Chunks(turns)|;
    }
    if Clean(turns) {
      assert CleanUpTo(turns, |Chunks(turns)|);
    }
  }

  function Lookup(d: Disk, name: string): Option<Data> {
    if name in d then Some(d[name]) else None
  }

  /** At every recorded moment the file is as before or complete, and every other file but tmp is untouched. */
  ghost predicate Atomic(before: Disk, path: string, tmp: string, content: Data, d: Disk) {
    && d - {path, tmp} == before - {path, tmp}
    && (Lookup(d, path) == Lookup(before, path) || Lookup(d, path) == Some(content))
  }

  /** ... at every moment recorded from position `from` on. */
  ghost predicate AllAtomic(before: Disk, path: string, tmp: string, content: Data, trace: seq<Disk>, from: nat) {
    forall i :: from <= i < |trace| ==> Atomic(before, path, tmp, content, trace[i])
  }

  lemma AtomicMoments(before: Disk, path: string, tmp: string, content: Data, partial: Data)
    requires tmp !in before && tmp != path
    ensures Atomic(before, path, tmp, content, before[tmp := partial])
    ensures before[tmp := partial] - {tmp} == before
    ensures Atomic(before, path, tmp, content, before)
    ensures before[tmp := content][path := content] - {tmp} == before[path := content]
    ensures Atomic(before, path, tmp, content, before[path := content])
  {
    assert before[tmp := partial] - {path, tmp} == before - {path, tmp};
  }

  lemma AtomicSnoc(before: Disk, path: string, tmp: string, content: Data, trace: seq<Disk>, d: Disk, from: nat)
    requires AllAtomic(before, path, tmp, content, trace, from) && Atomic(before, path, tmp, content, d)
    ensures AllAtomic(before, path, tmp, content, trace + [d], from)
  {
  }

  /** What Stat says about the target of a download. */
  datatype DstStat = IsDir | IsFile | NotExist | StatError

  /** A machine's files; `trace` records every state they go through. */
  class Store {
    var disk: Disk
    ghost var trace: seq<Disk>

    constructor ()
      ensures disk == map[] && trace == []
    {
      disk, trace := map[], [];
    }

    method Put(name: string, data: Data)
      modifies this
      ensures disk == old(disk)[name := data] && trace == old(trace) + [disk]
    {
      disk := disk[name := data];
      trace := trace + [disk];
    }

    method Remove(name: string)
      modifies this
      ensures disk == old(disk) - {name} && trace == old(trace) + [disk]
    {
      disk := disk - {name};
      trace := trace + [disk];
    }

    /** rename(2) replaces the target in one step. */
    method Rename(from: string, to: string)
      requires from in disk && from != to
      modifies this
      ensures disk == old(disk)[to := old(disk)[from]] - {from} && trace == old(trace) + [disk]
    {
      disk := disk[to := disk[from]] - {from};
      trace := trace + [disk];
    }

    /**
     The receive-and-write loop of both sides: stops at the first message that is not a
     chunk, or at a chunk that is canceled, cannot be written, or passes the limit.
     */
    method Reassemble(tmp: string, turns: seq<Turn>, limit: Option<nat>,
                      ghost was: Disk, ghost path: string, ghost from: nat)
      returns (n: nat, failed: bool)
      requires disk == was[tmp := []] && tmp !in was && tmp != path
      requires AllAtomic(was, path, tmp, Flatten(Chunks(turns)), trace, from)
      modifies this
      ensures n <= |Chunks(turns)| && disk == was[tmp := Flatten(Chunks(turns)[..n])]
      ensures failed <==> exists i :: 0 <= i < |Chunks(turns)| && Stops(turns, i, limit)
      ensures !failed ==> n == |Chunks(turns)|
      ensures |trace| >= |old(trace)|
      ensures AllAtomic(was, path, tmp, Flatten(Chunks(turns)), trace, from)
    {
      hide Atomic, AllAtomic, Stops, Chunks, Flatten;
      ghost var cs := Chunks(turns);
      ghost var content := Flatten(cs);
      FlattenEmpty(cs);
      var size := 0;
      n, failed := 0, false;
      while n < |turns| && turns[n].recv.Chunk?
        invariant 0 <= n <= |cs|
        invariant size == |Flatten(cs[..n])|
        invariant disk == was[tmp := Flatten(cs[..n])]
        invariant forall i :: 0 <= i < n ==> !Stops(turns, i, limit)
        invariant |trace| >= |old(trace)|
        invariant AllAtomic(was, path, tmp, content, trace, from)
      {
        FlattenSnoc(cs, n);
        var t := turns[n];
        StopsAt(turns, n, limit);
        if t.canceled {
          return n, true;
        }
        size := size + |t.recv.data|;
        if limit.Some? && size > limit.value {
          return n, true;
        }
        if !t.writeOk {
          return n, true;
        }
        AtomicMoments(was, path, tmp, content, Flatten(cs[..n + 1]));
        ghost var before := trace;
        Put(tmp, disk[tmp] + t.recv.data);
        assert disk == was[tmp := Flatten(cs[..n + 1])];
        AtomicSnoc(was, path, tmp, content, before, disk, from);
        n := n + 1;
      }
    }

    /** The server's UploadFile. CreateTemp picks a name nobody uses. */
    method UploadFile(first: Recv, tmp: string, createOk: bool, turns: seq<Turn>,
                      syncOk: bool, renameOk: bool, sendOk: bool)
      returns (committed: bool, ok: bool)
      requires tmp !in disk && (first.Info? ==> tmp != first.path)
      modifies this
      ensures committed <==>
              && first.Info? && first.path != "" && createOk && Clean(turns)
              && |Flatten(Chunks(turns))| <= 0x8000_0000 && syncOk && renameOk
      ensures ok <==> committed && sendOk
      ensures disk == if committed then old(disk)[first.path := Flatten(Chunks(turns))] else old(disk)
      ensures |trace| >= |old(trace)|
      ensures first.Info? ==>
                AllAtomic(old(disk), first.path, tmp, Flatten(Chunks(turns)), trace, |old(trace)|)
    {
      hide Atomic, Chunks, Flatten, Stops;
      if !first.Info? || |first.path| == 0 || !createOk {
        return false, false;
      }
      var path := first.path;
      ghost var cs, was, from := Chunks(turns), disk, |trace|;
      FlattenEmpty(cs);
      AtomicMoments(was, path, tmp, Flatten(cs), []);
      Put(tmp, []);
      var n, failed := Reassemble(tmp, turns, Some(MAX_SIZE), was, path, from);
      CleanIffNoStop(turns, Some(MAX_SIZE));
      AtomicMoments(was, path, tmp, Flatten(cs), Flatten(cs[..n]));
      if failed || n == |turns| || turns[n].canceled || !turns[n].recv.Eof? || !syncOk || !renameOk {
        Remove(tmp);
        return false, false;
      }
      assert cs[..n] == cs;
      Rename(tmp, path);
      committed, ok := true, sendOk;
    }

    /**
     The client's side of a download: temporary file beside the target, then rename. A
     target that is a directory stands for the file `joined`, the source's base name in it.
     */
    method CopyFrom(dst: string, stat: DstStat, joined: string, tmp: string, createOk: bool,
                    turns: seq<Turn>, renameOk: bool)
      returns (ok: bool)
      requires tmp !in disk && tmp != if stat.IsDir? then joined else dst
      modifies this
      ensures ok <==>
              && !stat.StatError? && !(stat.NotExist? && dst != "" && dst[|dst| - 1] == '/')
              && createOk && Clean(turns) && renameOk
      ensures ok && stat.IsDir? ==> disk == old(disk)[joined := Flatten(Chunks(turns))]
      ensures ok && !stat.IsDir? ==> disk == old(disk)[dst := Flatten(Chunks(turns))]
      ensures !ok ==> disk == old(disk)
      ensures |trace| >= |old(trace)|
      ensures AllAtomic(old(disk), if stat.IsDir? then joined else dst, tmp, Flatten(Chunks(turns)), trace,
                        |old(trace)|)
    {
      hide Atomic, Chunks, Flatten, Stops;
      var file := dst;
      match stat {
        case IsDir => file := joined;
        case IsFile =>
        case NotExist =>
          if dst != "" && dst[|dst| - 1] == '/' {
            return false;
          }
        case StatError => return false;
      }
      if !createOk {
        return false;
      }
      ghost var cs, was, from := Chunks(turns), disk, |trace|;
      FlattenEmpty(cs);
      AtomicMoments(was, file, tmp, Flatten(cs), []);
      Put(tmp, []);
      var n, failed := Reassemble(tmp, turns, None, was, file, from);
      CleanIffNoStop(turns, None);
      AtomicMoments(was, file, tmp, Flatten(cs), Flatten(cs[..n]));
      if failed || n == |turns| || turns[n].canceled || !turns[n].recv.Eof? || !renameOk {
        Remove(tmp);
        return false;
      }
      assert cs[..n] == cs;
      Rename(tmp, file);
      ok := true;
    }

    /**
     The server's DownloadFile; `pieces` is how the file reads up to its end, `fault` the
     turn, if any, whose Read or Send fails (the last turn is the Read that finds the end).
     */
    method DownloadFile(path: string, pieces: seq<Data>, fault: Option<nat>) returns (chunks: seq<Data>, ok: bool)
      requires path in disk ==> Flatten(pieces) == disk[path]
      requires forall p :: p in pieces ==> 0 < |p| <= BUFFER_SIZE
      ensures ok <==> path in disk && (fault.Some? ==> fault.value > |pieces|)
      ensures ok ==> Flatten(chunks) == disk[path]
      ensures chunks <= pieces
    {
      chunks := [];
      if path !in disk {
        return chunks, false;
      }
      var buffer := new Byte[BUFFER_SIZE];
      for k := 0 to |pieces|
        invariant chunks == pieces[..k] && (fault.Some? ==> fault.value >= k)
      {
        var n := Fill(buffer, pieces[k]);
        if fault == Some(k) {
          return chunks, false;
        }
        chunks := chunks + [buffer[..n]];
      }
      assert pieces[..|pieces|] == pieces;
      ok := fault != Some(|pieces|);
    }
  }

  // ---------------------------------------------------------------- the client's chunker

  /** What Read on the source returns. DataEof is data together with io.EOF, which io.Reader allows. */
  datatype Read = Data(data: Data) | DataEof(data: Data) | ReadEof | ReadError

  /** Everything the source yields up to its end. */
  function Source(src: seq<Read>): Data {
    if src == [] then []
    else
      match src[0]
      case Data(d) => d + Source(src[1..])
      case DataEof(d) => d
      case ReadEof => []
      case ReadError => []
  }

  /** What the chunker sends of it. */
  function Sent(src: seq<Read>): seq<Data> {
    if src == [] || !src[0].Data? then [] else [src[0].data] + Sent(src[1..])
  }

  /** The source ends rather than failing. */
  predicate Ends(src: seq<Read>) {
    src != [] && (if src[0].Data? then Ends(src[1..]) else !src[0].ReadError?)
  }

  /** The data that comes with the end of the source, if any. */
  function Tail(src: seq<Read>): Data {
    if src == [] then []
    else if src[0].Data? then Tail(src[1..])
    else if src[0].DataEof? then src[0].data
    else []
  }

  function AsChunks(ds: seq<Data>): seq<Recv> {
    seq(|ds|, i requires 0 <= i < |ds| => Chunk(ds[i]))
  }

  /** The messages of an upload whose every Send works, before the end of the stream. */
  function Upload(src: seq<Read>, dst: string): seq<Recv> { [Info(dst)] + AsChunks(Sent(src)) }

  /** Everything before the k-th read was data. */
  ghost predicate ReadsData(src: seq<Read>, k: nat) {
    k <= |src| && forall i :: 0 <= i < k ==> src[i].Data?
  }

  /** What is sent is exactly the data before the first read that is something else, and that one decides the end. */
  lemma {:induction false} SentExact(src: seq<Read>, k: nat)
    requires ReadsData(src, k)
    ensures |Sent(src)| >= k && forall i :: 0 <= i < k ==> Sent(src)[i] == src[i].data
    ensures k == |src| || !src[k].Data? ==>
              |Sent(src)| == k && (Ends(src) <==> k < |src| && (src[k].ReadEof? || src[k].DataEof?))
  {
    if k > 0 {
      SentExact(src[1..], k - 1);
    }
  }

  lemma UploadAt(src: seq<Read>, dst: string, k: nat)
    requires ReadsData(src, k)
    ensures |Upload(src, dst)| >= k + 1 && Upload(src, dst)[..1] == [Info(dst)]
    ensures k > 0 ==> Upload(src, dst)[..k + 1] == Upload(src, dst)[..k] + [Chunk(src[k - 1].data)]
    ensures k == |src| || !src[k].Data? ==> Upload(src, dst)[..k + 1] == Upload(src, dst)
  {
    SentExact(src, k);
  }

  /**
   Sends the source in pieces. A failed read or Send (`fault` counts Sends from 0, the
   first being the path) cancels the stream, which the server sees as an error.
   */
  method StreamTo(src: seq<Read>, dst: string, fault: Option<nat>, closeOk: bool) returns (msgs: seq<Recv>, ok: bool)
    requires forall r :: r in src && (r.Data? || r.DataEof?) ==> |r.data| <= BUFFER_SIZE
    ensures fault.Some? && fault.value < |Upload(src, dst)| ==>
              msgs == Upload(src, dst)[..fault.value] + [RecvError] && !ok
    ensures !(fault.Some? && fault.value < |Upload(src, dst)|) ==>
              && msgs == Upload(src, dst) + [if Ends(src) then Eof else RecvError]
              && (ok <==> Ends(src) && closeOk)
  {
    hide Upload, Sent, Ends;
    UploadAt(src, dst, 0);
    if fault == Some(0) {
      return [RecvError], false;
    }
    msgs := [Info(dst)];
    var buffer := new Byte[BUFFER_SIZE];
    var k := 0;
    while k < |src| && src[k].Data?
      invariant ReadsData(src, k) && k < |Upload(src, dst)| && msgs == Upload(src, dst)[..k + 1]
      invariant fault.Some? ==> fault.value > k
    {
      var n := Fill(buffer, src[k].data);
      UploadAt(src, dst, k + 1);
      if fault == Some(k + 1) {
        return msgs + [RecvError], false;
      }
      msgs := msgs + [Chunk(buffer[..n])];
      k := k + 1;
    }
    UploadAt(src, dst, k);
    SentExact(src, k);
    if k == |src| || src[k].ReadError? {
      return msgs + [RecvError], false;
    }
    return msgs + [Eof], closeOk;
  }

  lemma {:induction false} FlattenCons(d: Data, ds: seq<Data>)
    ensures Flatten([d] + ds) == d + Flatten(ds)
  {
    var all := [d] + ds;
    if ds == [] {
      assert all[..0] == [];
    } else {
      assert all[..|all| - 1] == [d] + ds[..|ds| - 1];
      FlattenCons(d, ds[..|ds| - 1]);
      assert Flatten(all) == (d + Flatten(ds[..|ds| - 1])) + ds[|ds| - 1];
    }
  }

  /**
   A source that ends is sent completely, except for data that comes together with the
   end; so the upload is the whole source exactly when there is none.
   */
  lemma {:induction false} SentIsSourceIffNoTail(src: seq<Read>)
    requires Ends(src)
    ensures Source(src) == Flatten(Sent(src)) + Tail(src)
    ensures Flatten(Sent(src)) == Source(src) <==> Tail(src) == []
  {
    if src[0].Data? {
      SentIsSourceIffNoTail(src[1..]);
      FlattenCons(src[0].data, Sent(src[1..]));
      assert Source(src) == src[0].data + (Flatten(Sent(src[1..])) + Tail(src[1..]));
    }
  }

  // ---------------------------------------------------------------- there and back

  /** The turns of a receiver that meets no fault. */
  function Turns(msgs: seq<Recv>): seq<Turn> {
    seq(|msgs|, i requires 0 <= i < |msgs| => Turn(false, msgs[i], true))
  }

  lemma {:induction false} TurnsOfStream(ds: seq<Data>, last: Recv)
    requires !last.Chunk?
    ensures Chunks(Turns(AsChunks(ds) + [last])) == ds
    ensures Clean(Turns(AsChunks(ds) + [last])) <==> last.Eof?
  {
    var turns := Turns(AsChunks(ds) + [last]);
    if ds != [] {
      TurnsOfStream(ds[1..], last);
      assert turns[1..] == Turns(AsChunks(ds[1..]) + [last]);
    }
    assert turns[|ds|] == Turn(false, last, true);
  }

  /** What the server receives after the path when no Send fails and it meets no fault itself. */
  function Received(src: seq<Read>): seq<Turn> {
    Turns(AsChunks(Sent(src)) + [if Ends(src) then Eof else RecvError])
  }

  /**
   For every source, uploaded to a server that meets no fault: it is committed (which
   by then is only a matter of the stream and the size) exactly when it ends and what is
   sent of it is at most 2^31 bytes; that is the whole source exactly when no data comes
   with the end and the source itself fits, and otherwise less.
   */
  lemma UploadedIffFits(src: seq<Read>)
    ensures var commits := Clean(Received(src)) && |Flatten(Chunks(Received(src)))| <= 0x8000_0000;
      var file := Flatten(Chunks(Received(src)));
      && (commits <==> Ends(src) && |Flatten(Sent(src))| <= 0x8000_0000)
      && (commits && file == Source(src) <==> Ends(src) && Tail(src) == [] && |Source(src)| <= 0x8000_0000)
      && (commits && |file| < |Source(src)| <==> Ends(src) && Tail(src) != [] && |Flatten(Sent(src))| <= 0x8000_0000)
  {
    TurnsOfStream(Sent(src), if Ends(src) then Eof else RecvError);
    hide Chunks, Clean, Turns, AsChunks, Source, Sent, Tail;
    if Ends(src) {
      SentIsSourceIffNoTail(src);
    }
  }

  /** A source over the bound that is committed nevertheless, cut at the bound. */
  lemma OversizeCanCommitTruncated(d: Data, b: Byte)
    requires |d| == 0x8000_0000
    ensures var src := [Read.Data(d), DataEof([b])];
      && |Source(src)| > 0x8000_0000
      && Clean(Received(src)) && Flatten(Chunks(Received(src))) == d
  {
    var src := [Read.Data(d), DataEof([b])];
    assert src[1..] == [DataEof([b])];
    assert Sent(src) == [d] by {
      assert Sent(src[1..]) == [];
    }
    assert Source(src) == d + [b] && Ends(src);
    assert Flatten([d]) == d by {
      assert [d][..0] == [];
    }
    TurnsOfStream([d], Eof);
  }

  /** Copying at most 2^31 bytes to the guest and back yields the same bytes, however either side splits them. */
  method CopyThereAndBack(guest: Store, host: Store, src: seq<Read>, remote: string, local: string, stat: DstStat,
                          joined: string, guestTmp: string, hostTmp: string, pieces: seq<Data>)
    requires guest != host && remote != ""
    requires !stat.StatError? && !(stat.NotExist? && local != "" && local[|local| - 1] == '/')
    requires guestTmp !in guest.disk && guestTmp != remote
    requires hostTmp !in host.disk && hostTmp != if stat.IsDir? then joined else local
    requires forall r :: r in src && (r.Data? || r.DataEof?) ==> |r.data| <= BUFFER_SIZE
    requires Ends(src) && Tail(src) == [] && |Source(src)| <= 0x8000_0000
    requires Flatten(pieces) == Source(src) && forall p :: p in pieces ==> 0 < |p| <= BUFFER_SIZE
    modifies guest, host
    ensures guest.disk == old(guest.disk)[remote := Source(src)]
    ensures host.disk == old(host.disk)[if stat.IsDir? then joined else local := Source(src)]
  {
    hide AllAtomic, Flatten, Chunks, Clean, Source, Sent, Ends, Tail, Turns;
    var msgs, _ := StreamTo(src, remote, None, true);
    SentIsSourceIffNoTail(src);
    TurnsOfStream(Sent(src), Eof);
    assert msgs[1..] == AsChunks(Sent(src)) + [Eof];
    var committed, _ := guest.UploadFile(msgs[0], guestTmp, true, Turns(msgs[1..]), true, true, true);
    var chunks, ok := guest.DownloadFile(remote, pieces, None);
    TurnsOfStream(chunks, Eof);
    var done := host.CopyFrom(local, stat, joined, hostTmp, true, Turns(AsChunks(chunks) + [Eof]), true);
  }

  /** One Read into the front of a buffer that is used again and again. */
  method Fill(buffer: array<Byte>, data: Data) returns (n: nat)
    requires |data| <= buffer.Length
    modifies buffer
    ensures n == |data| && buffer[..n] == data
  {
    n := |data|;
    forall i | 0 <= i < n {
      buffer[i] := data[i];
    }
  }

  /** Chunk i cannot be taken. */
  ghost predicate Stops(turns: seq<Turn>, i: nat, limit: Option<nat>)
    requires i < |Chunks(turns)|
  {
    || turns[i].canceled
    || !turns[i].writeOk
    || (limit.Some? && |Flatten(Chunks(turns)[..i + 1])| > limit.value)
  }

  lemma StopsAt(turns: seq<Turn>, i: nat, limit: Option<nat>)
    requires i < |Chunks(turns)|
    ensures Stops(turns, i, limit) <==>
            || turns[i].canceled
            || !turns[i].writeOk
            || (limit.Some? && |Flatten(Chunks(turns)[..i])| + |Chunks(turns)[i]| > limit.value)
  {
    FlattenSnoc(Chunks(turns), i);
  }

  /** Checking the running size at every chunk is checking the total. */
  lemma CleanIffNoStop(turns: seq<Turn>, limit: Option<nat>)
    ensures (forall i :: 0 <= i < |Chunks(turns)| ==> !Stops(turns, i, limit)) <==>
            && (forall i :: 0 <= i < |Chunks(turns)| ==> !turns[i].canceled && turns[i].writeOk)
            && (limit.Some? ==> |Flatten(Chunks(turns))| <= limit.value)
  {
    var cs := Chunks(turns);
    FlattenEmpty(cs);
    assert cs == [] ==> cs[..0] == cs;
    hide Chunks, Flatten;
    forall i | 0 <= i < |cs|
      ensures Stops(turns, i, limit) ==>
                turns[i].canceled || !turns[i].writeOk || (limit.Some? && |Flatten(cs)| > limit.value)
    {
      FlattenGrows(cs, i + 1);
    }
    if forall i :: 0 <= i < |cs| ==> !Stops(turns, i, limit) {
      forall i | 0 <= i < |cs|
        ensures !turns[i].canceled && turns[i].writeOk
      {
        assert !Stops(turns, i, limit);
      }
      if cs != [] {
        assert !Stops(turns, |cs| - 1, limit) && cs[..|cs| - 1 + 1] == cs;
      }
    }
  }
}
