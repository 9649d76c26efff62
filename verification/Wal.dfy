/** Blocks, the disk, and the log header block of `src/fs/defines.h`, byte by byte. */
module LogHeaders {
  const BLOCK_SIZE := 512
  const WORD := 8
  const LOG_MAX_SIZE := 63      // (BLOCK_SIZE - sizeof(usize)) / sizeof(usize)

  type byte = n: int | 0 <= n < 256
  type Data = d: seq<byte> | |d| == BLOCK_SIZE witness seq(BLOCK_SIZE, i => 0)
  type u64 = n: int | 0 <= n < 0x1_0000_0000_0000_0000
  type Disk = map<nat, Data>

  // ----- the header block: num_blocks and 63 block numbers, little endian -----

  type Slots = s: seq<u64> | |s| == LOG_MAX_SIZE witness seq(LOG_MAX_SIZE, i => 0)

  datatype LogHeader = LogHeader(num: u64, slots: Slots)

  function Pow256(k: nat): (p: nat)
    ensures p > 0
  {
    if k == 0 then 1 else 256 * Pow256(k - 1)
  }

  /** The `k` low bytes of `w`, least significant first. */
  function Bytes(w: nat, k: nat): (b: seq<byte>)
    ensures |b| == k
  {
    if k == 0 then [] else [w % 256] + Bytes(w / 256, k - 1)
  }

  function Value(b: seq<byte>): nat {
    if b == [] then 0 else b[0] + 256 * Value(b[1..])
  }

  lemma {:induction false} ValueBytes(w: nat, k: nat)
    requires w < Pow256(k)
    ensures Value(Bytes(w, k)) == w
  {
    if k > 0 {
      ValueBytes(w / 256, k - 1);
      assert Bytes(w, k)[1..] == Bytes(w / 256, k - 1);
    }
  }

  /** Little endian: byte i of a number has the weight 256 to the i. */
  lemma {:induction false} ByteWeight(b: seq<byte>, i: nat)
    requires i < |b|
    ensures b[i] == Value(b) / Pow256(i) % 256
  {
    if i > 0 {
      ByteWeight(b[1..], i - 1);
      assert Value(b) / 256 == Value(b[1..]);
      DivTwice(Value(b), Pow256(i - 1));
    }
  }

  lemma {:induction false} BytesWeight(w: nat, k: nat, i: nat)
    requires i < k
    ensures Bytes(w, k)[i] == w / Pow256(i) % 256
  {
    if i > 0 {
      BytesWeight(w / 256, k - 1, i - 1);
      assert Bytes(w, k)[i] == Bytes(w / 256, k - 1)[i - 1];
      DivTwice(w, Pow256(i - 1));
    }
  }

  lemma {:induction false} DivTwice(v: nat, m: nat)
    requires m > 0
    ensures v / (256 * m) == v / 256 / m
  {
    var q, r := v / 256, v % 256;
    var a, c := q / m, q % m;
    assert v == 256 * q + r && q == m * a + c;
    assert v == (256 * m) * a + (256 * c + r);
    assert 0 <= 256 * c + r < 256 * m;
    Quotient(v, 256 * m, a, 256 * c + r);
  }

  lemma {:induction false} Quotient(v: nat, m: nat, a: nat, r: nat)
    requires m > 0 && v == m * a + r && r < m
    ensures v / m == a
  {
    var q, t := v / m, v % m;
    assert v == m * q + t && 0 <= t < m;
    Unique(m, q, t, a, r);
  }

  lemma {:induction false} Unique(m: nat, q: nat, t: nat, a: nat, r: nat)
    requires m * q + t == m * a + r && t < m && r < m
    ensures q == a
  {
    if q < a {
      Steps(m, q, a);
    } else if a < q {
      Steps(m, a, q);
    }
  }

  lemma {:induction false} Steps(m: nat, a: nat, b: nat)
    requires a < b
    ensures m * a + m <= m * b
    decreases b
  {
    if a + 1 < b { Steps(m, a, b - 1); }
    assert m * b == m * (b - 1) + m;
  }

  lemma {:induction false} ValueBound(b: seq<byte>)
    ensures Value(b) < Pow256(|b|)
  {
    if b != [] { ValueBound(b[1..]); }
  }

  function EncodeWords(ws: seq<u64>): (b: seq<byte>)
    ensures |b| == WORD * |ws|
  {
    if ws == [] then [] else Bytes(ws[0], WORD) + EncodeWords(ws[1..])
  }

  /** Word k lies at byte 8k, least significant byte first. */
  lemma {:induction false} WordAt(ws: seq<u64>, k: nat, i: nat)
    requires k < |ws| && i < WORD
    ensures EncodeWords(ws)[WORD * k + i] == ws[k] / Pow256(i) % 256
  {
    if k == 0 {
      BytesWeight(ws[0], WORD, i);
    } else {
      WordAt(ws[1..], k - 1, i);
      assert EncodeWords(ws)[WORD * k + i] == EncodeWords(ws[1..])[WORD * (k - 1) + i];
    }
  }

  lemma {:induction false} WordFits()
    ensures Pow256(WORD) == 0x1_0000_0000_0000_0000
  {
    assert Pow256(4) == 0x1_0000_0000;
  }

  function DecodeWords(b: seq<byte>): (ws: seq<u64>)
    requires |b| % WORD == 0
    ensures |ws| == |b| / WORD
  {
    if b == [] then []
    else
      ValueBound(b[..WORD]); WordFits();
      [Value(b[..WORD])] + DecodeWords(b[WORD..])
  }

  lemma {:induction false} DecodeEncodeWords(ws: seq<u64>)
    ensures DecodeWords(EncodeWords(ws)) == ws
  {
    if ws != [] {
      var b := EncodeWords(ws);
      assert b[..WORD] == Bytes(ws[0], WORD) && b[WORD..] == EncodeWords(ws[1..]);
      WordFits();
      ValueBytes(ws[0], WORD);
      DecodeEncodeWords(ws[1..]);
    }
  }

  function EncodeHeader(h: LogHeader): (d: Data) {
    EncodeWords([h.num] + h.slots)
  }

  function DecodeHeader(d: Data): (h: LogHeader) {
    var ws := DecodeWords(d);
    LogHeader(ws[0], ws[1..])
  }

  lemma {:induction false} HeaderRoundTrip(h: LogHeader)
    ensures DecodeHeader(EncodeHeader(h)) == h
  {
    DecodeEncodeWords([h.num] + h.slots);
  }
}

/**
  The write-ahead log of `src/fs/cache.c` as seen by the disk: which block writes a commit and a
  replay issue, in which order, and what a crash between any two of them leaves behind.
 */
module Wal {
  import opened Common
  import opened LogHeaders

  datatype Write = Write(no: nat, data: Data)

  function Apply(d: Disk, ws: seq<Write>): Disk
    decreases ws
  {
    if ws == [] then d else Apply(d[ws[0].no := ws[0].data], ws[1..])
  }

  lemma {:induction false} ApplyConcat(d: Disk, a: seq<Write>, b: seq<Write>)
    ensures Apply(d, a + b) == Apply(Apply(d, a), b)
    decreases a
  {
    if a == [] {
      assert a + b == b;
    } else {
      assert (a + b)[1..] == a[1..] + b;
      ApplyConcat(d[a[0].no := a[0].data], a[1..], b);
    }
  }

  lemma {:induction false} ApplyAppend(d: Disk, ws: seq<Write>, w: Write)
    ensures Apply(d, ws + [w]) == Apply(d, ws)[w.no := w.data]
  {
    ApplyConcat(d, ws, [w]);
    assert Apply(Apply(d, ws), [w]) == Apply(Apply(d, ws)[w.no := w.data], []);
  }

  ghost predicate Touches(ws: seq<Write>, b: nat) {
    exists i :: 0 <= i < |ws| && ws[i].no == b
  }

  /** A block no write names keeps its contents; a block named once gets the contents of that write. */
  lemma {:induction false} ApplyAt(d: Disk, ws: seq<Write>, b: nat)
    ensures !Touches(ws, b) ==> (b in Apply(d, ws) <==> b in d) && (b in d ==> Apply(d, ws)[b] == d[b])
    ensures Touches(ws, b) ==> b in Apply(d, ws)
    ensures forall i ::
            0 <= i < |ws| && ws[i].no == b && (forall j :: i < j < |ws| ==> ws[j].no != b) ==>
            Apply(d, ws)[b] == ws[i].data
  {
    if ws != [] {
      var init, w := ws[..|ws| - 1], ws[|ws| - 1];
      assert ws == init + [w];
      ApplyAppend(d, init, w);
      ApplyAt(d, init, b);
      assert forall i :: 0 <= i < |init| ==> init[i] == ws[i];
    }
  }

  // ----- a group of operations -----

  /** The blocks a group has logged: block `slots[i]` is to become `vals[i]`. */
  datatype Group = Group(slots: Slots, vals: seq<Data>)

  predicate InLog(log: nat, b: nat) {
    log <= b <= log + LOG_MAX_SIZE
  }

  /** At most 63 distinct blocks outside the log, all of them and the whole log area on the disk. */
  ghost predicate Fits(log: nat, d: Disk, g: Group) {
    && |g.vals| <= LOG_MAX_SIZE
    && (forall b :: InLog(log, b) ==> b in d)
    && (forall i :: 0 <= i < |g.vals| ==> !InLog(log, g.slots[i]) && g.slots[i] in d)
    && (forall i, j :: 0 <= i < j < |g.vals| ==> g.slots[i] != g.slots[j])
  }

  /** What block b must hold once the group is installed. */
  ghost function Installed(g: Group, d: Disk, b: nat): Data
    requires b in d && |g.vals| <= LOG_MAX_SIZE
  {
    if i :| 0 <= i < |g.vals| && g.slots[i] == b then g.vals[i] else d[b]
  }

  /** The file system proper: everything but the log area. */
  ghost function DataOf(log: nat, d: Disk): Disk {
    map b | b in d && !InLog(log, b) :: d[b]
  }

  ghost function DataAfter(log: nat, d: Disk, g: Group): Disk
    requires |g.vals| <= LOG_MAX_SIZE
  {
    map b | b in d && !InLog(log, b) :: Installed(g, d, b)
  }

  // ----- the writes of a commit, in order -----

  function LogWrites(log: nat, g: Group): (ws: seq<Write>)
    ensures |ws| == |g.vals| && forall i :: 0 <= i < |ws| ==> ws[i] == Write(log + 1 + i, g.vals[i])
  {
    seq(|g.vals|, i requires 0 <= i < |g.vals| => Write(log + 1 + i, g.vals[i]))
  }

  function InstallWrites(g: Group): (ws: seq<Write>)
    requires |g.vals| <= LOG_MAX_SIZE
    ensures |ws| == |g.vals| && forall i :: 0 <= i < |ws| ==> ws[i] == Write(g.slots[i], g.vals[i])
  {
    seq(|g.vals|, i requires 0 <= i < |g.vals| => Write(g.slots[i], g.vals[i]))
  }

  function HeaderWrite(log: nat, num: u64, slots: Slots): Write {
    Write(log, EncodeHeader(LogHeader(num, slots)))
  }

  /** `cache_end_op`: copy to the log, write the header, install, clear the header. */
  function CommitWrites(log: nat, g: Group): seq<Write>
    requires |g.vals| <= LOG_MAX_SIZE
  {
    LogWrites(log, g) + [HeaderWrite(log, |g.vals|, g.slots)] + InstallWrites(g) + [HeaderWrite(log, 0, g.slots)]
  }

  // ----- replay -----

  ghost predicate Readable(log: nat, d: Disk) {
    (forall b :: InLog(log, b) ==> b in d) && DecodeHeader(d[log]).num <= LOG_MAX_SIZE
  }

  /** The group that the log area of a disk describes. */
  function GroupOf(log: nat, d: Disk): (g: Group)
    requires Readable(log, d)
    ensures |g.vals| <= LOG_MAX_SIZE
  {
    var h := DecodeHeader(d[log]);
    Group(h.slots, seq(h.num, i requires 0 <= i < h.num => assert InLog(log, log + 1 + i); d[log + 1 + i]))
  }

  /**
    `memset(header.block_no, 0, LOG_MAX_SIZE)` clears 63 bytes, not 63 numbers: seven numbers and
    the seven low bytes of the eighth.
   */
  function Wiped(slots: Slots): Slots {
    seq(LOG_MAX_SIZE, i requires 0 <= i < LOG_MAX_SIZE =>
      if i < 7 then 0 else if i == 7 then slots[7] - slots[7] % 0x100_0000_0000_0000 else slots[i])
  }

  /** `init_bcache`: install every logged block, then clear the header. */
  function ReplayWrites(log: nat, d: Disk): seq<Write>
    requires Readable(log, d)
  {
    var g := GroupOf(log, d);
    InstallWrites(g) + [HeaderWrite(log, 0, Wiped(g.slots))]
  }

  ghost function Recover(log: nat, d: Disk): Disk
    requires Readable(log, d)
  {
    Apply(d, ReplayWrites(log, d))
  }

  /** The log area describes a legal group, possibly an empty one. */
  ghost predicate Recoverable(log: nat, d: Disk) {
    Readable(log, d) && Fits(log, d, GroupOf(log, d))
  }

  /** No group is logged. */
  ghost predicate Quiet(log: nat, d: Disk) {
    Readable(log, d) && DecodeHeader(d[log]).num == 0
  }

  lemma {:induction false} QuietRecoverable(log: nat, d: Disk)
    requires Quiet(log, d)
    ensures Recoverable(log, d) && GroupOf(log, d).vals == []
    ensures DataAfter(log, d, GroupOf(log, d)) == DataOf(log, d)
  {
  }

  /** Installing the first j blocks of a group. */
  lemma {:induction false} InstallAt(log: nat, d: Disk, g: Group, j: nat, b: nat)
    requires Fits(log, d, g) && j <= |g.vals| && b in d
    ensures b in Apply(d, InstallWrites(g)[..j])
    ensures InLog(log, b) ==> Apply(d, InstallWrites(g)[..j])[b] == d[b]
    ensures Installed(g, Apply(d, InstallWrites(g)[..j]), b) == Installed(g, d, b)
    ensures j == |g.vals| ==> Apply(d, InstallWrites(g)[..j])[b] == Installed(g, d, b)
  {
    var ws := InstallWrites(g)[..j];
    ApplyAt(d, ws, b);
    if i :| 0 <= i < |g.vals| && g.slots[i] == b {
      if i < j { assert ws[i].no == b; }
    } else {
      assert !Touches(ws, b);
    }
  }

  lemma {:induction false} InstallKeys(log: nat, d: Disk, g: Group, j: nat)
    requires Fits(log, d, g) && j <= |g.vals|
    ensures Apply(d, InstallWrites(g)[..j]).Keys == d.Keys
  {
    var ws := InstallWrites(g)[..j];
    forall b: nat ensures b in Apply(d, ws) <==> b in d { ApplyAt(d, ws, b); }
  }

  /** Replay installs exactly the logged group and leaves the log empty. */
  lemma {:induction false} RecoverInstalls(log: nat, d: Disk)
    requires Recoverable(log, d)
    ensures Recover(log, d).Keys == d.Keys && Quiet(log, Recover(log, d))
    ensures DataOf(log, Recover(log, d)) == DataAfter(log, d, GroupOf(log, d))
  {
    var g := GroupOf(log, d);
    var mid := Apply(d, InstallWrites(g));
    assert InstallWrites(g)[..|g.vals|] == InstallWrites(g);
    InstallKeys(log, d, g, |g.vals|);
    ApplyAppend(d, InstallWrites(g), HeaderWrite(log, 0, Wiped(g.slots)));
    HeaderCleared(log, mid, Wiped(g.slots));
    forall b | b in d && !InLog(log, b) ensures mid[b] == Installed(g, d, b) { InstallAt(log, d, g, |g.vals|, b); }
  }

  /** The same log blocks describe the same group. */
  lemma {:induction false} SameLog(log: nat, d: Disk, e: Disk)
    requires Readable(log, d) && e.Keys == d.Keys && forall b: nat :: InLog(log, b) ==> e[b] == d[b]
    ensures Readable(log, e) && GroupOf(log, e) == GroupOf(log, d)
  {
    assert InLog(log, log);
    forall i | 0 <= i < DecodeHeader(d[log]).num ensures GroupOf(log, e).vals[i] == GroupOf(log, d).vals[i] {
      assert InLog(log, log + 1 + i);
    }
    assert GroupOf(log, e).vals == GroupOf(log, d).vals;
  }

  /** Installing part of the logged group changes neither the log nor what the file system will be. */
  lemma {:induction false} PartlyInstalled(log: nat, d: Disk, g: Group, j: nat)
    requires Recoverable(log, d) && GroupOf(log, d) == g && j <= |g.vals|
    ensures var e := Apply(d, InstallWrites(g)[..j]);
            e.Keys == d.Keys && Recoverable(log, e) && GroupOf(log, e) == g
                && DataAfter(log, e, g) == DataAfter(log, d, g)
  {
    var e := Apply(d, InstallWrites(g)[..j]);
    InstallKeys(log, d, g, j);
    forall b: nat | InLog(log, b) ensures b in d && e[b] == d[b] { InstallAt(log, d, g, j, b); }
    SameLog(log, d, e);
    forall b | b in d && !InLog(log, b) ensures Installed(g, e, b) == Installed(g, d, b) { InstallAt(log, d, g, j, b); }
  }

  // ----- a crash during a commit -----

  /** Up to the header write the file system and the header are untouched. */
  lemma {:induction false} BeforeHeader(log: nat, d: Disk, g: Group, k: nat)
    requires Quiet(log, d) && Fits(log, d, g) && k <= |g.vals|
    ensures var e := Apply(d, LogWrites(log, g)[..k]);
            e.Keys == d.Keys && Quiet(log, e) && DataOf(log, e) == DataOf(log, d)
  {
    var ws := LogWrites(log, g)[..k];
    var e := Apply(d, ws);
    forall b: nat ensures (b in e <==> b in d) && (b in d && (b == log || !InLog(log, b)) ==> e[b] == d[b]) {
      ApplyAt(d, ws, b);
      if Touches(ws, b) {
        var i :| 0 <= i < |ws| && ws[i].no == b;
        assert InLog(log, b) && b != log;
      }
    }
  }

  /** The disk right after the header write. */
  ghost function Logged(log: nat, d: Disk, g: Group): Disk
    requires |g.vals| <= LOG_MAX_SIZE
  {
    Apply(d, LogWrites(log, g) + [HeaderWrite(log, |g.vals|, g.slots)])
  }

  lemma {:induction false} LoggedElsewhere(log: nat, d: Disk, g: Group)
    requires Fits(log, d, g)
    ensures var e := Logged(log, d, g); e.Keys == d.Keys && forall b :: b in d && !InLog(log, b) ==> e[b] == d[b]
  {
    var ws, h := LogWrites(log, g), HeaderWrite(log, |g.vals|, g.slots);
    var e := Logged(log, d, g);
    ApplyAppend(d, ws, h);
    forall b: nat ensures (b in e <==> b in d) && (b in d && !InLog(log, b) ==> e[b] == d[b]) {
      ApplyAt(d, ws, b);
      if Touches(ws, b) {
        var i :| 0 <= i < |ws| && ws[i].no == b;
        assert InLog(log, b);
      }
      assert InLog(log, log);
    }
  }

  /** With the header write the log describes the whole group, and the file system is still untouched. */
  lemma {:induction false} AfterHeader(log: nat, d: Disk, g: Group)
    requires Fits(log, d, g)
    ensures var e := Logged(log, d, g);
            e.Keys == d.Keys && Readable(log, e) && GroupOf(log, e) == g
                && forall b :: b in d && !InLog(log, b) ==> e[b] == d[b]
  {
    var ws, h := LogWrites(log, g), HeaderWrite(log, |g.vals|, g.slots);
    var e := Logged(log, d, g);
    LoggedElsewhere(log, d, g);
    ApplyAppend(d, ws, h);
    HeaderRoundTrip(LogHeader(|g.vals|, g.slots));
    forall i | 0 <= i < |g.vals| ensures e[log + 1 + i] == g.vals[i] {
      ApplyAt(d, ws, log + 1 + i);
      assert ws[i].no == log + 1 + i;
    }
    assert GroupOf(log, e).vals == g.vals;
  }

  /** While the group is being installed the log still describes it. */
  lemma {:induction false} WhileInstalling(log: nat, d: Disk, g: Group, j: nat)
    requires Fits(log, d, g) && j <= |g.vals|
    ensures var e := Apply(Logged(log, d, g), InstallWrites(g)[..j]);
            e.Keys == d.Keys && Recoverable(log, e) && GroupOf(log, e) == g
                && DataAfter(log, e, g) == DataAfter(log, d, g)
  {
    AfterHeader(log, d, g);
    PartlyInstalled(log, Logged(log, d, g), g, j);
    assert DataAfter(log, Logged(log, d, g), g) == DataAfter(log, d, g);
  }

  /** A finished commit has installed the group and emptied the log. */
  lemma {:induction false} CommitDone(log: nat, d: Disk, g: Group)
    requires Fits(log, d, g)
    ensures var e := Apply(d, CommitWrites(log, g));
            e.Keys == d.Keys && Quiet(log, e) && DataOf(log, e) == DataAfter(log, d, g)
  {
    InstalledAll(log, d, g);
    var m := LogWrites(log, g) + [HeaderWrite(log, |g.vals|, g.slots)];
    ApplyConcat(d, m, InstallWrites(g));
    ApplyAppend(d, m + InstallWrites(g), HeaderWrite(log, 0, g.slots));
    HeaderCleared(log, Apply(Logged(log, d, g), InstallWrites(g)), g.slots);
  }

  /** Before the header is cleared, every block of the group is home. */
  lemma {:induction false} InstalledAll(log: nat, d: Disk, g: Group)
    requires Fits(log, d, g)
    ensures var i := Apply(Logged(log, d, g), InstallWrites(g));
            i.Keys == d.Keys && DataOf(log, i) == DataAfter(log, d, g)
  {
    var m := Logged(log, d, g);
    var i := Apply(m, InstallWrites(g));
    assert InstallWrites(g)[..|g.vals|] == InstallWrites(g);
    WhileInstalling(log, d, g, |g.vals|);
    AfterHeader(log, d, g);
    forall b | b in d && !InLog(log, b) ensures i[b] == Installed(g, d, b) { InstallAt(log, m, g, |g.vals|, b); }
  }

  lemma {:induction false} HeaderCleared(log: nat, d: Disk, slots: Slots)
    requires forall b :: InLog(log, b) ==> b in d
    ensures log in d && var e := d[log := HeaderWrite(log, 0, slots).data];
            e.Keys == d.Keys && Quiet(log, e) && DataOf(log, e) == DataOf(log, d)
  {
    HeaderRoundTrip(LogHeader(0, slots));
    assert InLog(log, log);
  }

  /** The first k writes of a commit, by phase. */
  lemma {:induction false} CommitPrefix(log: nat, g: Group, k: nat)
    requires |g.vals| <= LOG_MAX_SIZE && k <= |CommitWrites(log, g)|
    ensures var n := |g.vals|;
            && |CommitWrites(log, g)| == 2 * n + 2
            && (k <= n ==> CommitWrites(log, g)[..k] == LogWrites(log, g)[..k])
            && (n < k <= 2 * n + 1 ==>
                  CommitWrites(log, g)[..k] ==
                      (LogWrites(log, g) + [HeaderWrite(log, |g.vals|, g.slots)]) + InstallWrites(g)[..k - n - 1])
            && (k == 2 * n + 2 ==> CommitWrites(log, g)[..k] == CommitWrites(log, g))
  {
  }

  /**
    Crash atomicity: after any number of the commit's writes, replay gives the file system before
    the group or after it, and the header write decides which.
   */
  lemma {:induction false} CrashAtomic(log: nat, d: Disk, g: Group, k: nat)
    requires Quiet(log, d) && Fits(log, d, g) && k <= |CommitWrites(log, g)|
    ensures var e := Apply(d, CommitWrites(log, g)[..k]);
            && Recoverable(log, e) && e.Keys == d.Keys
            && DataOf(log, Recover(log, e)) == if k <= |g.vals| then DataOf(log, d) else DataAfter(log, d, g)
  {
    var n := |g.vals|;
    var e := Apply(d, CommitWrites(log, g)[..k]);
    CommitPrefix(log, g, k);
    if k <= n {
      BeforeHeader(log, d, g, k);
      QuietRecoverable(log, e);
    } else if k <= 2 * n + 1 {
      ApplyConcat(d, LogWrites(log, g) + [HeaderWrite(log, |g.vals|, g.slots)], InstallWrites(g)[..k - n - 1]);
      WhileInstalling(log, d, g, k - n - 1);
    } else {
      CommitDone(log, d, g);
      QuietRecoverable(log, e);
    }
    RecoverInstalls(log, e);
  }

  // ----- a crash during replay -----

  /** However far a replay got, replaying again gives the same file system. */
  lemma {:induction false} ReplayIdempotent(log: nat, d: Disk, j: nat)
    requires Recoverable(log, d) && j <= |ReplayWrites(log, d)|
    ensures var e := Apply(d, ReplayWrites(log, d)[..j]);
            && Recoverable(log, e) && e.Keys == d.Keys
            && DataOf(log, Recover(log, e)) == DataOf(log, Recover(log, d))
  {
    var g := GroupOf(log, d);
    var e := Apply(d, ReplayWrites(log, d)[..j]);
    RecoverInstalls(log, d);
    if j <= |g.vals| {
      assert ReplayWrites(log, d)[..j] == InstallWrites(g)[..j];
      PartlyInstalled(log, d, g, j);
    } else {
      assert ReplayWrites(log, d)[..j] == ReplayWrites(log, d);
      QuietRecoverable(log, e);
    }
    RecoverInstalls(log, e);
  }

  // ----- whole runs -----

  /** A group is committed, or the machine stops after k of its writes and after each of several partial replays. */
  datatype Event =
    | Commit(g: Group)
    | Crash(g: Group, k: nat, replays: seq<nat>)

  /** Reboot: interrupted replays, then one that completes. */
  ghost function Reboots(log: nat, d: Disk, replays: seq<nat>): Disk
    requires Recoverable(log, d)
    decreases replays
  {
    if replays == [] then Recover(log, d)
    else
      var j := Min(replays[0], |ReplayWrites(log, d)|);
      ReplayIdempotent(log, d, j);
      Reboots(log, Apply(d, ReplayWrites(log, d)[..j]), replays[1..])
  }

  /** The disk that the last replay, the one that completes, finds. */
  function Interrupted(log: nat, d: Disk, replays: seq<nat>): (e: Disk)
    requires Recoverable(log, d)
    ensures Recoverable(log, e)
    decreases replays
  {
    if replays == [] then d
    else
      var j := Min(replays[0], |ReplayWrites(log, d)|);
      ReplayIdempotent(log, d, j);
      Interrupted(log, Apply(d, ReplayWrites(log, d)[..j]), replays[1..])
  }

  lemma {:induction false} RebootsLast(log: nat, d: Disk, replays: seq<nat>)
    requires Recoverable(log, d)
    ensures Reboots(log, d, replays) == Recover(log, Interrupted(log, d, replays))
    decreases replays
  {
    if replays != [] {
      var j := Min(replays[0], |ReplayWrites(log, d)|);
      ReplayIdempotent(log, d, j);
      RebootsLast(log, Apply(d, ReplayWrites(log, d)[..j]), replays[1..]);
    }
  }

  lemma {:induction false} RebootsRecover(log: nat, d: Disk, replays: seq<nat>)
    requires Recoverable(log, d)
    ensures Reboots(log, d, replays).Keys == d.Keys && Quiet(log, Reboots(log, d, replays))
    ensures DataOf(log, Reboots(log, d, replays)) == DataOf(log, Recover(log, d))
    decreases replays
  {
    if replays == [] {
      RecoverInstalls(log, d);
    } else {
      var j := Min(replays[0], |ReplayWrites(log, d)|);
      ReplayIdempotent(log, d, j);
      RebootsRecover(log, Apply(d, ReplayWrites(log, d)[..j]), replays[1..]);
    }
  }

  ghost function StepDisk(log: nat, d: Disk, e: Event): Disk
    requires Quiet(log, d) && Fits(log, d, e.g)
  {
    match e
    case Commit(g) => Apply(d, CommitWrites(log, g))
    case Crash(g, k, replays) =>
      var k' := Min(k, |CommitWrites(log, g)|);
      CrashAtomic(log, d, g, k');
      Reboots(log, Apply(d, CommitWrites(log, g)[..k']), replays)
  }

  /** The file system as a plain map: a group happens as a whole or not at all. */
  ghost function StepData(a: Disk, e: Event): Disk
    requires |e.g.vals| <= LOG_MAX_SIZE
  {
    if e.Commit? || e.k > |e.g.vals| then map b | b in a :: Installed(e.g, a, b) else a
  }

  lemma {:induction false} StepAtomic(log: nat, d: Disk, e: Event)
    requires Quiet(log, d) && Fits(log, d, e.g)
    ensures var d' := StepDisk(log, d, e);
            d'.Keys == d.Keys && Quiet(log, d') && DataOf(log, d') == StepData(DataOf(log, d), e)
  {
    var a := DataOf(log, d);
    assert DataAfter(log, d, e.g) == map b | b in a :: Installed(e.g, a, b);
    match e
    case Commit(g) => CommitDone(log, d, g);
    case Crash(g, k, replays) =>
      var k' := Min(k, |CommitWrites(log, g)|);
      CommitPrefix(log, g, k');
      CrashAtomic(log, d, g, k');
      RebootsRecover(log, Apply(d, CommitWrites(log, g)[..k']), replays);
  }

  ghost predicate AllFit(log: nat, d: Disk, es: seq<Event>) {
    forall i :: 0 <= i < |es| ==> Fits(log, d, es[i].g)
  }

  lemma {:induction false} StillFit(log: nat, d: Disk, e: Disk, es: seq<Event>)
    requires AllFit(log, d, es) && e.Keys == d.Keys && es != []
    ensures AllFit(log, e, es[1..])
  {
    forall i | 0 <= i < |es[1..]| ensures Fits(log, e, es[1..][i].g) { assert Fits(log, d, es[i + 1].g); }
  }

  ghost function RunDisk(log: nat, d: Disk, es: seq<Event>): Disk
    requires Quiet(log, d) && AllFit(log, d, es)
    decreases es
  {
    if es == [] then d
    else
      StepAtomic(log, d, es[0]);
      StillFit(log, d, StepDisk(log, d, es[0]), es);
      RunDisk(log, StepDisk(log, d, es[0]), es[1..])
  }

  ghost function RunData(a: Disk, es: seq<Event>): Disk
    requires forall i :: 0 <= i < |es| ==> |es[i].g.vals| <= LOG_MAX_SIZE
    decreases es
  {
    if es == [] then a else RunData(StepData(a, es[0]), es[1..])
  }

  /**
    Over any history of commits, crashes and interrupted replays, the file system is the plain map
    with whole groups applied.
   */
  lemma {:induction false} RunAtomic(log: nat, d: Disk, es: seq<Event>)
    requires Quiet(log, d) && AllFit(log, d, es)
    ensures Quiet(log, RunDisk(log, d, es))
    ensures DataOf(log, RunDisk(log, d, es)) == RunData(DataOf(log, d), es)
    decreases es
  {
    if es != [] {
      StepAtomic(log, d, es[0]);
      StillFit(log, d, StepDisk(log, d, es[0]), es);
      RunAtomic(log, StepDisk(log, d, es[0]), es[1..]);
    }
  }

  // ----- the size of the log area -----

  ghost predicate Outside(log: nat, nlog: nat, g: Group, b: nat)
    requires |g.vals| <= LOG_MAX_SIZE
  {
    !(log <= b < log + nlog) && forall i :: 0 <= i < |g.vals| ==> g.slots[i] != b
  }

  ghost predicate Survives(log: nat, d: Disk, g: Group, b: nat)
    requires |g.vals| <= LOG_MAX_SIZE && b in d
  {
    b in Apply(d, CommitWrites(log, g)) && Apply(d, CommitWrites(log, g))[b] == d[b]
  }

  /** Blocks outside the area of `nlog` blocks that the layout reserves, and outside the group, survive the commit. */
  ghost predicate StaysInside(log: nat, nlog: nat, d: Disk, g: Group)
    requires |g.vals| <= LOG_MAX_SIZE
  {
    forall b :: b in d && Outside(log, nlog, g, b) ==> Survives(log, d, g, b)
  }

  /** A group of blocks on the disk outside the nlog log blocks of the layout, and the blocks its log will take. */
  ghost predicate Placed(log: nat, nlog: nat, d: Disk, g: Group) {
    && 0 < nlog && |g.vals| <= LOG_MAX_SIZE
    && (forall b :: log <= b <= log + |g.vals| ==> b in d)
    && (forall i :: 0 <= i < |g.vals| ==> g.slots[i] in d && !(log <= g.slots[i] < log + nlog))
    && (forall i, j :: 0 <= i < j < |g.vals| ==> g.slots[i] != g.slots[j])
  }

  /** Until the header is written, nothing outside the log area has changed, however many writes have been made. */
  ghost predicate LogsInside(log: nat, nlog: nat, d: Disk, g: Group)
    requires |g.vals| <= LOG_MAX_SIZE
  {
    forall k: nat, b: nat | k <= |g.vals| && b in d && !(log <= b < log + nlog) ::
      LoggedAt(log, d, g, k, b) == d[b]
  }

  /** Block b after the first k copies to the log. */
  ghost function LoggedAt(log: nat, d: Disk, g: Group, k: nat, b: nat): Data
    requires k <= |g.vals| && b in d
  {
    ApplyAt(d, LogWrites(log, g)[..k], b);
    Apply(d, LogWrites(log, g)[..k])[b]
  }

  /**
    A log area of nlog blocks, header included, holds a group exactly when the group has fewer than
    nlog blocks; with more, a crash before the commit has already changed the file system.
   */
  lemma {:induction false} LogAreaExact(log: nat, nlog: nat, d: Disk, g: Group)
    requires Placed(log, nlog, d, g)
    ensures (forall e: Disk :: e.Keys == d.Keys ==> LogsInside(log, nlog, e, g)) <==> |g.vals| < nlog
  {
    if |g.vals| < nlog {
      forall e: Disk | e.Keys == d.Keys ensures LogsInside(log, nlog, e, g) {
        forall k: nat, b: nat | k <= |g.vals| && b in e && !(log <= b < log + nlog)
          ensures LoggedAt(log, e, g, k, b) == e[b]
        {
          ApplyAt(e, LogWrites(log, g)[..k], b);
        }
      }
    } else {
      var b := log + nlog;
      assert b in d;
      var e := d[b := Other(g.vals[nlog - 1])];
      LastCopy(log, e, g, nlog);
      assert e.Keys == d.Keys && LoggedAt(log, e, g, nlog, b) != e[b];
      assert !LogsInside(log, nlog, e, g);
    }
  }

  /** The k-th copy. */
  lemma {:induction false} LastCopy(log: nat, d: Disk, g: Group, k: nat)
    requires 0 < k <= |g.vals| && log + k in d
    ensures LoggedAt(log, d, g, k, log + k) == g.vals[k - 1]
  {
    var ws := LogWrites(log, g)[..k];
    ApplyAt(d, ws, log + k);
    assert ws[k - 1] == Write(log + k, g.vals[k - 1]);
  }

  ghost predicate Logs(g: Group, b: nat)
    requires |g.vals| <= LOG_MAX_SIZE
  {
    exists i :: 0 <= i < |g.vals| && g.slots[i] == b
  }

  /** After the whole commit only blocks of the group differ exactly when every block its log strayed into is one. */
  lemma {:induction false} CommitStraysExactly(log: nat, nlog: nat, d: Disk, g: Group)
    requires Placed(log, nlog, d, g)
    ensures (forall e: Disk :: e.Keys == d.Keys ==> StaysInside(log, nlog, e, g)) <==>
            forall b :: log + nlog <= b <= log + |g.vals| ==> Logs(g, b)
  {
    hide StaysInside, Logs;
    if forall b :: log + nlog <= b <= log + |g.vals| ==> Logs(g, b) {
      forall e: Disk | e.Keys == d.Keys ensures StaysInside(log, nlog, e, g) { StrayedHome(log, nlog, e, g); }
    } else {
      var b :| log + nlog <= b <= log + |g.vals| && !Logs(g, b);
      var e := Strayed(log, nlog, d, g, b);
    }
  }

  /** A disk on which the commit overwrites b. */
  lemma {:induction false} Strayed(log: nat, nlog: nat, d: Disk, g: Group, b: nat) returns (e: Disk)
    requires Placed(log, nlog, d, g) && log + nlog <= b <= log + |g.vals| && !Logs(g, b)
    ensures e.Keys == d.Keys && !StaysInside(log, nlog, e, g)
  {
    hide Apply, CommitWrites;
    assert b in d;
    e := d[b := Other(g.vals[b - log - 1])];
    CommitTouches(log, e, g, b);
    assert b in e && Outside(log, nlog, g, b) && !Survives(log, e, g, b);
  }

  lemma {:induction false} StrayedHome(log: nat, nlog: nat, d: Disk, g: Group)
    requires |g.vals| <= LOG_MAX_SIZE && forall b :: log + nlog <= b <= log + |g.vals| ==> Logs(g, b)
    ensures StaysInside(log, nlog, d, g)
  {
    forall b | b in d && Outside(log, nlog, g, b) ensures Survives(log, d, g, b) {
      assert !Logs(g, b);
      CommitTouches(log, d, g, b);
    }
  }

  function Other(x: Data): (y: Data)
    ensures y != x
  {
    var y := x[0 := if x[0] == 0 then 1 else 0];
    assert y[0] != x[0];
    y
  }

  lemma {:induction false} CommitTouches(log: nat, d: Disk, g: Group, b: nat)
    requires |g.vals| <= LOG_MAX_SIZE && b in d && forall i :: 0 <= i < |g.vals| ==> g.slots[i] != b
    ensures b in Apply(d, CommitWrites(log, g))
    ensures !(log <= b <= log + |g.vals|) ==> Apply(d, CommitWrites(log, g))[b] == d[b]
    ensures log < b <= log + |g.vals| ==> Apply(d, CommitWrites(log, g))[b] == g.vals[b - log - 1]
  {
    var l, i := LogWrites(log, g), InstallWrites(g);
    var h, z := HeaderWrite(log, |g.vals|, g.slots), HeaderWrite(log, 0, g.slots);
    ApplyAt(d, l, b);
    ApplyAppend(d, l, h);
    var m := Apply(d, l + [h]);
    ApplyConcat(d, l + [h], i);
    ApplyAt(m, i, b);
    assert !Touches(i, b);
    ApplyAppend(d, l + [h] + i, z);
    if log < b <= log + |g.vals| { assert l[b - log - 1].no == b; }
  }

  /**
    The image that mkfs builds reserves 63 log blocks including the header, so a full group of 63
    blocks writes its last copy over the first inode block, before anything is committed: a crash
    then leaves an empty log, which replay has nothing to repair from.  Unless the group holds that
    block, the finished commit leaves it overwritten too.
   */
  lemma {:induction false} MkfsLogTooSmall(log: nat, d: Disk, g: Group)
    requires Quiet(log, d) && Placed(log, LOG_MAX_SIZE, d, g) && |g.vals| == LOG_MAX_SIZE
    ensures var inodeStart, e := log + LOG_MAX_SIZE, Apply(d, CommitWrites(log, g)[..LOG_MAX_SIZE]);
            inodeStart in d && inodeStart in e && e[inodeStart] == g.vals[LOG_MAX_SIZE - 1] && Quiet(log, e)
    ensures var inodeStart, e := log + LOG_MAX_SIZE, Apply(d, CommitWrites(log, g));
            !Logs(g, inodeStart) ==> inodeStart in e && e[inodeStart] == g.vals[LOG_MAX_SIZE - 1]
  {
    var inodeStart, ws := log + LOG_MAX_SIZE, LogWrites(log, g);
    var e := Apply(d, ws);
    assert inodeStart in d;
    CommitPrefix(log, g, LOG_MAX_SIZE);
    assert ws[..LOG_MAX_SIZE] == ws;
    LastCopy(log, d, g, LOG_MAX_SIZE);
    ApplyAt(d, ws, inodeStart);
    ApplyAt(d, ws, log);
    forall b | InLog(log, b) ensures b in e { ApplyAt(d, ws, b); }
    if !Logs(g, inodeStart) { CommitTouches(log, d, g, inodeStart); }
  }
}
