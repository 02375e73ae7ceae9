/**
 * The media store: files with a per-channel and a global quota, the oldest
 * files of a channel making room for a new one. The disk is one list in order
 * of last write; a channel's directory is the part of it that names the channel.
 */
module MediaStore {
  import opened Common

  datatype File = File(channel: string, name: string, data: seq<Byte>)

  datatype Limits = Limits(upload: int, channel: int, total: int)

  datatype Error = TooLarge | GlobalQuota | ChannelQuota

  const MAX_UPLOAD := 50 * 1024 * 1024

  // ---- The disk ----

  function Total(fs: seq<File>): nat {
    if fs == [] then 0 else |fs[0].data| + Total(fs[1..])
  }

  function Part(f: File, ch: string): seq<File> {
    if f.channel == ch then [f] else []
  }

  /** The files of one channel, oldest first. */
  function Own(fs: seq<File>, ch: string): seq<File> {
    if fs == [] then [] else Part(fs[0], ch) + Own(fs[1..], ch)
  }

  function Usage(fs: seq<File>, ch: string): nat {
    Total(Own(fs, ch))
  }

  predicate Named(f: File, ch: string, name: string) {
    f.channel == ch && f.name == name
  }

  function Get(fs: seq<File>, ch: string, name: string): Option<seq<Byte>> {
    if fs == [] then None else if Named(fs[0], ch, name) then Some(fs[0].data) else Get(fs[1..], ch, name)
  }

  function Delete(fs: seq<File>, ch: string, name: string): seq<File> {
    if fs == [] then [] else if Named(fs[0], ch, name) then fs[1..] else [fs[0]] + Delete(fs[1..], ch, name)
  }

  function Write(fs: seq<File>, f: File): seq<File> {
    Delete(fs, f.channel, f.name) + [f]
  }

  /** No two files have the same path. */
  predicate Unique(fs: seq<File>) {
    fs != [] ==> Get(fs[1..], fs[0].channel, fs[0].name).None? && Unique(fs[1..])
  }

  // ---- Pruning and storing ----

  /** How many of the files, oldest first, it takes to free `need` bytes. */
  function Cut(own: seq<File>, need: int): (k: nat)
    ensures k <= |own|
  {
    if own == [] || need <= 0 then 0 else 1 + Cut(own[1..], need - |own[0].data|)
  }

  function DropOwn(fs: seq<File>, ch: string, k: nat): seq<File> {
    if fs == [] || k == 0 then fs
    else if fs[0].channel == ch then DropOwn(fs[1..], ch, k - 1)
    else [fs[0]] + DropOwn(fs[1..], ch, k)
  }

  function Prune(fs: seq<File>, ch: string, need: int): seq<File> {
    DropOwn(fs, ch, Cut(Own(fs, ch), need))
  }

  function Room(l: Limits, fs: seq<File>, ch: string, size: nat): seq<File> {
    if Usage(fs, ch) + size > l.channel then Prune(fs, ch, size) else fs
  }

  function Refusal(l: Limits, fs: seq<File>, f: File): Option<Error> {
    if |f.data| > l.upload then Some(TooLarge)
    else if Total(fs) + |f.data| > l.total then Some(GlobalQuota)
    else if Usage(Room(l, fs, f.channel, |f.data|), f.channel) + |f.data| > l.channel then Some(ChannelQuota)
    else None
  }

  /** The disk after an attempt to store; a channel refused room stays pruned. */
  function Store(l: Limits, fs: seq<File>, f: File): seq<File> {
    match Refusal(l, fs, f)
    case None => Write(Room(l, fs, f.channel, |f.data|), f)
    case Some(ChannelQuota) => Room(l, fs, f.channel, |f.data|)
    case Some(_) => fs
  }

  // ---- Sums ----

  lemma {:induction false} TotalSplit(a: seq<File>, b: seq<File>)
    ensures Total(a + b) == Total(a) + Total(b)
  {
    if a == [] {
      assert a + b == b;
    } else {
      TotalSplit(a[1..], b);
      assert (a + b)[1..] == a[1..] + b;
    }
  }

  lemma TailOfSum(fs: seq<File>, f: File)
    requires fs != []
    ensures (fs + [f])[0] == fs[0] && (fs + [f])[1..] == fs[1..] + [f]
  {
  }

  lemma SumOfThree(a: seq<File>, b: seq<File>, c: seq<File>)
    ensures a + (b + c) == a + b + c
  {
  }

  lemma {:induction false} OwnAppend(fs: seq<File>, f: File, ch: string)
    ensures Own(fs + [f], ch) == Own(fs, ch) + Part(f, ch)
  {
    if fs == [] {
      assert fs + [f] == [f];
    } else {
      TailOfSum(fs, f);
      OwnAppend(fs[1..], f, ch);
      SumOfThree(Part(fs[0], ch), Own(fs[1..], ch), Part(f, ch));
    }
  }

  lemma OwnPrepend(f: File, fs: seq<File>, ch: string)
    ensures Own([f] + fs, ch) == Part(f, ch) + Own(fs, ch)
    ensures Usage([f] + fs, ch) == (if f.channel == ch then |f.data| else 0) + Usage(fs, ch)
    ensures Total([f] + fs) == |f.data| + Total(fs)
  {
    assert ([f] + fs)[1..] == fs;
    TotalSplit(Part(f, ch), Own(fs, ch));
  }

  /** Deleting only lowers usage, and only in the file's own channel. */
  lemma {:induction false} DeleteLowers(fs: seq<File>, ch: string, name: string, c: string)
    ensures Total(Delete(fs, ch, name)) <= Total(fs)
    ensures Usage(Delete(fs, ch, name), c) <= Usage(fs, c)
    ensures c != ch ==> Own(Delete(fs, ch, name), c) == Own(fs, c)
  {
    if fs != [] {
      assert fs == [fs[0]] + fs[1..];
      OwnPrepend(fs[0], fs[1..], c);
      if !Named(fs[0], ch, name) {
        DeleteLowers(fs[1..], ch, name, c);
        OwnPrepend(fs[0], Delete(fs[1..], ch, name), c);
      }
    }
  }

  lemma WriteAdds(fs: seq<File>, f: File, c: string)
    ensures Total(Write(fs, f)) <= Total(fs) + |f.data|
    ensures Usage(Write(fs, f), c) <= Usage(fs, c) + if c == f.channel then |f.data| else 0
    ensures c != f.channel ==> Own(Write(fs, f), c) == Own(fs, c)
  {
    var d := Delete(fs, f.channel, f.name);
    DeleteLowers(fs, f.channel, f.name, c);
    TotalSplit(d, [f]);
    OwnAppend(d, f, c);
    TotalSplit(Own(d, c), Part(f, c));
  }

  // ---- Pruning removes a prefix of the channel ----

  lemma {:induction false} DropOwnIs(fs: seq<File>, ch: string, k: nat)
    requires k <= |Own(fs, ch)|
    ensures Own(DropOwn(fs, ch, k), ch) == Own(fs, ch)[k..] && Total(DropOwn(fs, ch, k)) <= Total(fs)
    decreases |fs|
  {
    if fs != [] && k > 0 {
      if fs[0].channel == ch {
        DropOwnIs(fs[1..], ch, k - 1);
        assert Own(fs, ch)[1..] == Own(fs[1..], ch);
      } else {
        DropOwnIs(fs[1..], ch, k);
        OwnPrepend(fs[0], DropOwn(fs[1..], ch, k), ch);
      }
    }
  }

  lemma {:induction false} DropOwnFrame(fs: seq<File>, ch: string, k: nat, c: string)
    requires c != ch
    ensures Own(DropOwn(fs, ch, k), c) == Own(fs, c)
    decreases |fs|
  {
    if fs != [] && k > 0 {
      if fs[0].channel == ch {
        DropOwnFrame(fs[1..], ch, k - 1, c);
      } else {
        DropOwnFrame(fs[1..], ch, k, c);
        OwnPrepend(fs[0], DropOwn(fs[1..], ch, k), c);
      }
    }
  }

  lemma {:induction false} CutFrees(own: seq<File>, need: int)
    ensures Cut(own, need) == |own| || Total(own[..Cut(own, need)]) >= need
    decreases |own|
  {
    if own != [] && need > 0 {
      var k := Cut(own, need);
      CutFrees(own[1..], need - |own[0].data|);
      assert own[..k][1..] == own[1..][..k - 1];
    }
  }

  lemma {:induction false} CutIsShortest(own: seq<File>, need: int, j: nat)
    requires j < Cut(own, need)
    ensures Total(own[..j]) < need
    decreases |own|
  {
    if j > 0 {
      CutIsShortest(own[1..], need - |own[0].data|, j - 1);
      assert own[..j][1..] == own[1..][..j - 1];
    }
  }

  /**
   * Pruning takes from the channel, oldest first, exactly the shortest run of
   * files that frees the bytes needed, or all of them; other channels keep theirs.
   */
  lemma PruneIsShortest(fs: seq<File>, ch: string, need: int) returns (k: nat)
    ensures k <= |Own(fs, ch)| && Own(Prune(fs, ch, need), ch) == Own(fs, ch)[k..]
    ensures k == |Own(fs, ch)| || Total(Own(fs, ch)[..k]) >= need
    ensures forall j :: 0 <= j < k ==> Total(Own(fs, ch)[..j]) < need
    ensures forall c :: c != ch ==> Own(Prune(fs, ch, need), c) == Own(fs, c)
    ensures Total(Prune(fs, ch, need)) <= Total(fs)
  {
    var own := Own(fs, ch);
    k := Cut(own, need);
    CutFrees(own, need);
    forall j | 0 <= j < k
      ensures Total(own[..j]) < need
    {
      CutIsShortest(own, need, j);
    }
    forall c | c != ch
      ensures Own(Prune(fs, ch, need), c) == Own(fs, c)
    {
      DropOwnFrame(fs, ch, k, c);
    }
    DropOwnIs(fs, ch, k);
  }

  /** So a pruned channel is empty or has `need` bytes less. */
  lemma PruneFrees(fs: seq<File>, ch: string, need: int)
    ensures var u := Usage(Prune(fs, ch, need), ch); u == 0 || u + need <= Usage(fs, ch)
    ensures Total(Prune(fs, ch, need)) <= Total(fs)
  {
    var own := Own(fs, ch);
    var k := PruneIsShortest(fs, ch, need);
    TotalSplit(own[..k], own[k..]);
    assert own == own[..k] + own[k..];
  }

  // ---- Quotas ----

  ghost predicate WithinChannels(l: Limits, fs: seq<File>) {
    forall c :: Usage(fs, c) <= l.channel
  }

  ghost predicate WithinQuota(l: Limits, fs: seq<File>) {
    WithinChannels(l, fs) && Total(fs) <= l.total
  }

  lemma RoomLowers(l: Limits, fs: seq<File>, ch: string, size: nat)
    ensures Total(Room(l, fs, ch, size)) <= Total(fs)
    ensures Usage(Room(l, fs, ch, size), ch) <= Usage(fs, ch)
    ensures forall c :: c != ch ==> Own(Room(l, fs, ch, size), c) == Own(fs, c)
  {
    var k := PruneIsShortest(fs, ch, size);
    PruneFrees(fs, ch, size);
  }

  lemma StoreFits(l: Limits, fs: seq<File>, f: File)
    ensures Usage(Store(l, fs, f), f.channel) <= Max(Usage(fs, f.channel), l.channel)
    ensures Total(Store(l, fs, f)) <= Max(Total(fs), l.total)
  {
    RoomLowers(l, fs, f.channel, |f.data|);
    WriteAdds(Room(l, fs, f.channel, |f.data|), f, f.channel);
  }

  /** A store leaves every other channel alone. */
  lemma StoreFrame(l: Limits, fs: seq<File>, f: File, c: string)
    requires c != f.channel
    ensures Own(Store(l, fs, f), c) == Own(fs, c)
  {
    var room := Room(l, fs, f.channel, |f.data|);
    RoomLowers(l, fs, f.channel, |f.data|);
    assert Own(room, c) == Own(fs, c);
    WriteAdds(room, f, c);
  }

  /** Every attempt to store, refused or not, keeps both quotas. */
  lemma StoreKeepsQuota(l: Limits, fs: seq<File>, f: File)
    requires WithinQuota(l, fs)
    ensures WithinQuota(l, Store(l, fs, f))
  {
    StoreFits(l, fs, f);
    forall c
      ensures Usage(Store(l, fs, f), c) <= l.channel
    {
      assert Usage(fs, c) <= l.channel;
      if c != f.channel {
        StoreFrame(l, fs, f, c);
      }
    }
  }

  /** Once its size passes, a file is refused for its channel exactly when it is larger than the channel may be. */
  lemma ChannelRefusalIff(l: Limits, fs: seq<File>, f: File)
    requires WithinQuota(l, fs) && |f.data| <= l.upload && Total(fs) + |f.data| <= l.total
    ensures Refusal(l, fs, f) == if |f.data| > l.channel then Some(ChannelQuota) else None
  {
    assert Usage(fs, f.channel) <= l.channel;
    PruneFrees(fs, f.channel, |f.data|);
  }

  /** And such a file costs the channel everything it held, although it is not stored. */
  lemma RefusalEmptiesChannel(l: Limits, fs: seq<File>, f: File)
    requires WithinQuota(l, fs) && Refusal(l, fs, f) == Some(ChannelQuota)
    ensures Own(Store(l, fs, f), f.channel) == []
    ensures forall c :: c != f.channel ==> Own(Store(l, fs, f), c) == Own(fs, c)
  {
    var ch, need := f.channel, |f.data|;
    var own := Own(fs, ch);
    assert Usage(fs, ch) <= l.channel;
    ChannelRefusalIff(l, fs, f);
    var k := PruneIsShortest(fs, ch, need);
    RoomLowers(l, fs, ch, need);
    TotalSplit(own[..k], own[k..]);
    assert own == own[..k] + own[k..];
  }

  // ---- Reading back ----

  lemma {:induction false} GetAppend(fs: seq<File>, f: File, ch: string, name: string)
    ensures Get(fs + [f], ch, name) ==
            if Get(fs, ch, name).Some? then Get(fs, ch, name) else if Named(f, ch, name) then Some(f.data) else None
  {
    if fs == [] {
      assert fs + [f] == [f];
    } else {
      GetAppend(fs[1..], f, ch, name);
      assert (fs + [f])[1..] == fs[1..] + [f];
    }
  }

  lemma {:induction false} GetDelete(fs: seq<File>, ch: string, name: string, c: string, n: string)
    requires Unique(fs)
    ensures Get(Delete(fs, ch, name), c, n) == if c == ch && n == name then None else Get(fs, c, n)
  {
    if fs != [] && !Named(fs[0], ch, name) {
      GetDelete(fs[1..], ch, name, c, n);
      var d := [fs[0]] + Delete(fs[1..], ch, name);
      assert d[1..] == Delete(fs[1..], ch, name);
    }
  }

  /** What was written is what is read, and no other path changes. */
  lemma GetAfterWrite(fs: seq<File>, f: File, c: string, n: string)
    requires Unique(fs)
    ensures Get(Write(fs, f), c, n) == if c == f.channel && n == f.name then Some(f.data) else Get(fs, c, n)
  {
    GetDelete(fs, f.channel, f.name, c, n);
    GetAppend(Delete(fs, f.channel, f.name), f, c, n);
  }

  lemma {:induction false} GetDropped(fs: seq<File>, ch: string, k: nat, c: string, n: string)
    requires Get(fs, c, n).None?
    ensures Get(DropOwn(fs, ch, k), c, n).None?
    decreases |fs|
  {
    if fs != [] && k > 0 {
      if fs[0].channel == ch {
        GetDropped(fs[1..], ch, k - 1, c, n);
      } else {
        GetDropped(fs[1..], ch, k, c, n);
        var d := [fs[0]] + DropOwn(fs[1..], ch, k);
        assert d[1..] == DropOwn(fs[1..], ch, k);
      }
    }
  }

  lemma {:induction false} DropUnique(fs: seq<File>, ch: string, k: nat)
    requires Unique(fs)
    ensures Unique(DropOwn(fs, ch, k))
    decreases |fs|
  {
    if fs != [] && k > 0 {
      if fs[0].channel == ch {
        DropUnique(fs[1..], ch, k - 1);
      } else {
        DropUnique(fs[1..], ch, k);
        GetDropped(fs[1..], ch, k, fs[0].channel, fs[0].name);
        var d := [fs[0]] + DropOwn(fs[1..], ch, k);
        assert d[1..] == DropOwn(fs[1..], ch, k);
      }
    }
  }

  lemma {:induction false} DeleteUnique(fs: seq<File>, ch: string, name: string)
    requires Unique(fs)
    ensures Unique(Delete(fs, ch, name))
  {
    if fs != [] && !Named(fs[0], ch, name) {
      DeleteUnique(fs[1..], ch, name);
      GetDelete(fs[1..], ch, name, fs[0].channel, fs[0].name);
      var d := [fs[0]] + Delete(fs[1..], ch, name);
      assert d[1..] == Delete(fs[1..], ch, name);
    }
  }

  lemma {:induction false} AppendUnique(fs: seq<File>, f: File)
    requires Unique(fs) && Get(fs, f.channel, f.name).None?
    ensures Unique(fs + [f])
  {
    if fs == [] {
      assert fs + [f] == [f];
    } else {
      assert (fs + [f])[1..] == fs[1..] + [f];
      AppendUnique(fs[1..], f);
      GetAppend(fs[1..], f, fs[0].channel, fs[0].name);
    }
  }

  lemma WriteUnique(fs: seq<File>, f: File)
    requires Unique(fs)
    ensures Unique(Write(fs, f))
  {
    DeleteUnique(fs, f.channel, f.name);
    GetDelete(fs, f.channel, f.name, f.channel, f.name);
    AppendUnique(Delete(fs, f.channel, f.name), f);
  }

  lemma StoreUnique(l: Limits, fs: seq<File>, f: File)
    requires Unique(fs)
    ensures Unique(Store(l, fs, f))
  {
    DropUnique(fs, f.channel, Cut(Own(fs, f.channel), |f.data|));
    WriteUnique(Room(l, fs, f.channel, |f.data|), f);
  }

  // ---- What a store leaves on the disk ----

  lemma {:induction false} GetOwn(fs: seq<File>, ch: string, name: string)
    ensures Get(Own(fs, ch), ch, name) == Get(fs, ch, name)
  {
    if fs != [] {
      GetOwn(fs[1..], ch, name);
      if fs[0].channel == ch {
        assert Own(fs, ch)[1..] == Own(fs[1..], ch);
      } else {
        assert Own(fs, ch) == Own(fs[1..], ch);
      }
    }
  }

  lemma GetSameOwn(fs: seq<File>, fs': seq<File>, ch: string, name: string)
    requires Own(fs', ch) == Own(fs, ch)
    ensures Get(fs', ch, name) == Get(fs, ch, name)
  {
    GetOwn(fs, ch, name);
    GetOwn(fs', ch, name);
  }

  /** A file that is not refused is on the disk. */
  lemma StoreReadsBack(l: Limits, fs: seq<File>, f: File)
    requires Unique(fs) && Refusal(l, fs, f).None?
    ensures Get(Store(l, fs, f), f.channel, f.name) == Some(f.data)
  {
    var room := Room(l, fs, f.channel, |f.data|);
    DropUnique(fs, f.channel, Cut(Own(fs, f.channel), |f.data|));
    GetAfterWrite(room, f, f.channel, f.name);
  }

  /** Other channels keep their files, and so does the file's own channel as long as it needs no pruning. */
  lemma StoreKeepsOthers(l: Limits, fs: seq<File>, f: File, c: string, n: string)
    requires Unique(fs) && (c != f.channel || (n != f.name && Usage(fs, f.channel) + |f.data| <= l.channel))
    ensures Get(Store(l, fs, f), c, n) == Get(fs, c, n)
  {
    if c != f.channel {
      StoreFrame(l, fs, f, c);
      GetSameOwn(fs, Store(l, fs, f), c, n);
    } else {
      GetAfterWrite(fs, f, c, n);
    }
  }

  /** When it does, the files left are those behind the pruned run, in the same order. */
  lemma StorePrunes(l: Limits, fs: seq<File>, f: File, n: string)
    requires Unique(fs) && n != f.name && Refusal(l, fs, f).None? && Usage(fs, f.channel) + |f.data| > l.channel
    ensures var own := Own(fs, f.channel);
            Get(Store(l, fs, f), f.channel, n) == Get(own[Cut(own, |f.data|)..], f.channel, n)
  {
    var ch, k := f.channel, Cut(Own(fs, f.channel), |f.data|);
    DropUnique(fs, ch, k);
    GetAfterWrite(Prune(fs, ch, |f.data|), f, ch, n);
    DropOwnIs(fs, ch, k);
    GetOwn(Prune(fs, ch, |f.data|), ch, n);
  }

  /** A file too large on its own, or for the disk as a whole, leaves the disk as it is. */
  lemma EarlyRefusals(l: Limits, fs: seq<File>, f: File)
    ensures |f.data| > l.upload ==> Refusal(l, fs, f) == Some(TooLarge) && Store(l, fs, f) == fs
    ensures |f.data| <= l.upload && Total(fs) + |f.data| > l.total ==>
              Refusal(l, fs, f) == Some(GlobalQuota) && Store(l, fs, f) == fs
  {
  }

  // ---- Runs ----

  datatype Event = Upload(file: File) | Erase(channel: string, name: string)

  function After(l: Limits, fs: seq<File>, es: seq<Event>): seq<File>
    decreases |es|
  {
    if es == [] then fs
    else
      var before := After(l, fs, es[..|es| - 1]);
      match es[|es| - 1]
      case Upload(f) => Store(l, before, f)
      case Erase(ch, name) => Delete(before, ch, name)
  }

  /** From any disk within quota, every run stays within it and never has two files under one path. */
  lemma {:induction false} QuotasHold(l: Limits, fs: seq<File>, es: seq<Event>)
    requires WithinQuota(l, fs) && Unique(fs)
    ensures WithinQuota(l, After(l, fs, es)) && Unique(After(l, fs, es))
    decreases |es|
  {
    if es != [] {
      var before := After(l, fs, es[..|es| - 1]);
      QuotasHold(l, fs, es[..|es| - 1]);
      match es[|es| - 1]
      case Upload(f) =>
        StoreKeepsQuota(l, before, f);
        StoreUnique(l, before, f);
      case Erase(ch, name) =>
        EraseKeepsQuota(l, before, ch, name);
        DeleteUnique(before, ch, name);
    }
  }

  /** The event is no business of the path: it concerns another one, and prunes nothing from its channel. */
  predicate Leaves(l: Limits, fs: seq<File>, e: Event, c: string, n: string) {
    match e
    case Upload(f) => c != f.channel || (n != f.name && Usage(fs, f.channel) + |f.data| <= l.channel)
    case Erase(ch, name) => c != ch || n != name
  }

  predicate AllLeave(l: Limits, fs: seq<File>, es: seq<Event>, c: string, n: string)
    decreases |es|
  {
    es == [] ||
    (AllLeave(l, fs, es[..|es| - 1], c, n) && Leaves(l, After(l, fs, es[..|es| - 1]), es[|es| - 1], c, n))
  }

  /** A path reads the same until it is written, erased or pruned. */
  lemma {:induction false} FilesKept(l: Limits, fs: seq<File>, es: seq<Event>, c: string, n: string)
    requires WithinQuota(l, fs) && Unique(fs) && AllLeave(l, fs, es, c, n)
    ensures Get(After(l, fs, es), c, n) == Get(fs, c, n)
    decreases |es|
  {
    if es != [] {
      var before := After(l, fs, es[..|es| - 1]);
      FilesKept(l, fs, es[..|es| - 1], c, n);
      QuotasHold(l, fs, es[..|es| - 1]);
      match es[|es| - 1]
      case Upload(f) => StoreKeepsOthers(l, before, f, c, n);
      case Erase(ch, name) => GetDelete(before, ch, name, c, n);
    }
  }

  lemma EraseKeepsQuota(l: Limits, fs: seq<File>, ch: string, name: string)
    requires WithinQuota(l, fs)
    ensures WithinQuota(l, Delete(fs, ch, name))
  {
    DeleteLowers(fs, ch, name, ch);
    forall c
      ensures Usage(Delete(fs, ch, name), c) <= l.channel
    {
      DeleteLowers(fs, ch, name, c);
      assert Usage(fs, c) <= l.channel;
    }
  }

  // ---- The store ----

  lemma {:induction false} DeleteOldest(fs: seq<File>, ch: string, name: string, k: nat)
    requires Own(fs, ch) != [] && name == Own(fs, ch)[0].name
    ensures Own(Delete(fs, ch, name), ch) == Own(fs, ch)[1..]
    ensures DropOwn(Delete(fs, ch, name), ch, k) == DropOwn(fs, ch, k + 1)
    decreases |fs|
  {
    if fs[0].channel != ch {
      DeleteOldest(fs[1..], ch, name, k);
      OwnPrepend(fs[0], Delete(fs[1..], ch, name), ch);
      var d := [fs[0]] + Delete(fs[1..], ch, name);
      assert d[1..] == Delete(fs[1..], ch, name);
    }
  }

  /** Deleting the oldest file and pruning for the rest is pruning for the whole. */
  lemma PruneNext(fs: seq<File>, ch: string, need: int, f: File, rest: seq<File>)
    requires Own(fs, ch) != [] && need > 0 && f == Own(fs, ch)[0] && rest == Delete(fs, ch, f.name)
    ensures Own(rest, ch) == Own(fs, ch)[1..] && Prune(rest, ch, need - |f.data|) == Prune(fs, ch, need)
  {
    var own := Own(fs, ch);
    var k := Cut(own[1..], need - |f.data|);
    DeleteOldest(fs, ch, f.name, k);
    PruneFrom(fs, rest, ch, need, own, k);
  }

  lemma PruneFrom(fs: seq<File>, rest: seq<File>, ch: string, need: int, own: seq<File>, k: nat)
    requires own != [] && need > 0 && own == Own(fs, ch) && Own(rest, ch) == own[1..]
    requires k == Cut(own[1..], need - |own[0].data|) && DropOwn(rest, ch, k) == DropOwn(fs, ch, k + 1)
    ensures Prune(rest, ch, need - |own[0].data|) == Prune(fs, ch, need)
  {
    assert Cut(own, need) == k + 1;
  }

  lemma {:induction false} DeleteAbsent(fs: seq<File>, ch: string, name: string)
    requires Get(fs, ch, name).None?
    ensures Delete(fs, ch, name) == fs
  {
    if fs != [] {
      DeleteAbsent(fs[1..], ch, name);
    }
  }

  class MediaStorage {
    const limits: Limits
    var files: seq<File>

    constructor (upload: int, channel: int, total: int, files: seq<File>)
      ensures limits == Limits(Min(upload, MAX_UPLOAD), channel, total) && this.files == files
    {
      limits := Limits(Min(upload, MAX_UPLOAD), channel, total);
      this.files := files;
    }

    method ChannelUsage(ch: string) returns (sum: nat)
      ensures sum == Usage(files, ch)
    {
      sum := 0;
      var i := |files|;
      while i > 0
        invariant 0 <= i <= |files| && sum == Usage(files[i..], ch)
      {
        i := i - 1;
        assert files[i..] == [files[i]] + files[i + 1..];
        OwnPrepend(files[i], files[i + 1..], ch);
        if files[i].channel == ch {
          sum := sum + |files[i].data|;
        }
      }
      assert files[0..] == files;
    }

    method GlobalUsage() returns (sum: nat)
      ensures sum == Total(files)
    {
      sum := 0;
      var i := |files|;
      while i > 0
        invariant 0 <= i <= |files| && sum == Total(files[i..])
      {
        i := i - 1;
        assert files[i..][1..] == files[i + 1..];
        sum := sum + |files[i].data|;
      }
      assert files[0..] == files;
    }

    /** Unlinking a path that does not exist does nothing. */
    method DeleteFile(ch: string, name: string)
      modifies this`files
      ensures files == Delete(old(files), ch, name)
    {
      if Get(files, ch, name).Some? {
        files := Delete(files, ch, name);
      } else {
        DeleteAbsent(files, ch, name);
      }
    }

    /** One turn of the pruning loop: what is left to do is the same, less the oldest file. */
    method PruneOne(ch: string, f: File, ghost left: int)
      requires left > 0 && Own(files, ch) != [] && f == Own(files, ch)[0]
      modifies this`files
      ensures Own(files, ch) == old(Own(files, ch))[1..]
      ensures Prune(files, ch, left - |f.data|) == old(Prune(files, ch, left))
    {
      PruneNext(files, ch, left, f, Delete(files, ch, f.name));
      DeleteFile(ch, f.name);
    }

    method PruneOldest(ch: string, need: int)
      modifies this`files
      ensures files == Prune(old(files), ch, need)
    {
      var own := Own(files, ch);
      var freed := 0;
      ghost var left := need;
      while own != [] && freed < need
        invariant own == Own(files, ch) && left == need - freed
        invariant Prune(files, ch, left) == Prune(old(files), ch, need)
        decreases |own|
      {
        var f := own[0];
        PruneOne(ch, f, left);
        freed, left := freed + |f.data|, left - |f.data|;
        own := own[1..];
      }
    }

    method StoreFile(ch: string, name: string, data: seq<Byte>) returns (r: Result<string, Error>)
      modifies this`files
      ensures files == Store(limits, old(files), File(ch, name, data))
      ensures var e := Refusal(limits, old(files), File(ch, name, data));
              r == if e.None? then Ok(ch + "/" + name) else Err(e.value)
    {
      if |data| > limits.upload {
        return Err(TooLarge);
      }
      var total := GlobalUsage();
      if total + |data| > limits.total {
        return Err(GlobalQuota);
      }
      var usage := ChannelUsage(ch);
      if usage + |data| > limits.channel {
        PruneOldest(ch, |data|);
        usage := ChannelUsage(ch);
        if usage + |data| > limits.channel {
          return Err(ChannelQuota);
        }
      }
      DeleteFile(ch, name);
      files := files + [File(ch, name, data)];
      r := Ok(ch + "/" + name);
    }
  }
}
