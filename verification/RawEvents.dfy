/** Inotify events as they lie in memory, and as the handler reads them. */
module RawEvents {
  import opened Bytes
  import opened EventHandler

  /** sizeof(struct inotify_event) */
  const HEADER := 16
  const NAME_MAX := 255

  /** The bytes of one event: a header, whose last field is the length of the name field
      that follows, of at most NAME_MAX bytes and the terminating null. */
  predicate IsRecord(r: seq<byte>) {
    HEADER <= |r| <= HEADER + NAME_MAX + 1 && |r| == HEADER + Get32(r[12..16])
  }

  type Record = r: seq<byte> | IsRecord(r)
    witness [0, 0, 0, 0, 0, 0, 0, 0, 0, 0, 0, 0, 0, 0, 0, 0]

  /** Several events, one behind the other. */
  function Concat(rs: seq<Record>): seq<byte> {
    if rs == [] then [] else rs[0] + Concat(rs[1..])
  }

  lemma ConcatPrepend(r: Record, rs: seq<Record>)
    ensures Concat([r] + rs) == r + Concat(rs)
  {
    assert ([r] + rs)[1..] == rs;
  }

  lemma ConcatOne(r: Record)
    ensures Concat([r]) == r
  {
    assert [r][1..] == [];
  }

  lemma {:induction false} SizeAtLeast(rs: seq<Record>)
    ensures |Concat(rs)| >= HEADER * |rs|
    decreases |rs|
  {
    if rs != [] { SizeAtLeast(rs[1..]); }
  }

  // ----- masks -----

  function Bit(f: Flag): nat {
    match f
    case MovedFrom => 0x40
    case MovedTo => 0x80
    case Create => 0x100
    case DeleteSelf => 0x400
    case MoveSelf => 0x800
    case Unmount => 0x2000
    case Overflow => 0x4000
    case Ignored => 0x8000
    case IsDir => 0x4000_0000
  }

  function FlagsOf(mask: uint32): set<Flag> {
    set f: Flag | mask / Bit(f) % 2 == 1
  }

  function CString(bs: seq<byte>): string {
    if bs == [] || bs[0] == 0 then "" else [bs[0] as char] + CString(bs[1..])
  }

  /** The event as the handler reads it. */
  function EventOf(r: Record): Event {
    Event(GetInt32(r[..4]), FlagsOf(Get32(r[4..8])), Get32(r[8..12]), CString(r[16..]))
  }

  function Events(rs: seq<Record>): (es: seq<Event>)
    ensures |es| == |rs|
  {
    seq(|rs|, i requires 0 <= i < |rs| => EventOf(rs[i]))
  }

  // ----- every event that fits has its bytes -----

  function Digit(flags: set<Flag>, f: Flag): (d: nat)
    ensures d <= 1
  {
    if f in flags then 1 else 0
  }

  function MaskOf(flags: set<Flag>): uint32 {
    0x40 * Digit(flags, MovedFrom) + 0x80 * Digit(flags, MovedTo) + 0x100 * Digit(flags, Create)
    + 0x400 * Digit(flags, DeleteSelf) + 0x800 * Digit(flags, MoveSelf) + 0x2000 * Digit(flags, Unmount)
    + 0x4000 * Digit(flags, Overflow) + 0x8000 * Digit(flags, Ignored) + 0x4000_0000 * Digit(flags, IsDir)
  }

  lemma MulAtLeast(m: nat, a: nat, k: nat)
    ensures m * a + m <= m * (a + 1 + k)
  {
    assert m * (a + 1 + k) == m * a + m + m * k;
  }

  lemma Quotient(n: nat, m: nat, q: nat, low: nat)
    requires low < m && n == m * q + low
    ensures n / m == q
  {
    var q2 := n / m;
    assert n == m * q2 + n % m;
    if q2 < q { MulAtLeast(m, q2, q - q2 - 1); }
    if q < q2 { MulAtLeast(m, q, q2 - q - 1); }
  }

  lemma TestBit(mask: uint32, unit: nat, low: nat, digit: nat, high: nat)
    requires low < unit && mask == unit * (digit + 2 * high) + low && digit <= 1
    ensures mask / unit % 2 == 1 <==> digit == 1
  {
    Quotient(mask, unit, digit + 2 * high, low);
  }

  /** Exactly the flag's bit of the mask tells. */
  predicate Tells(mask: uint32, flags: set<Flag>, f: Flag) {
    mask / Bit(f) % 2 == 1 <==> f in flags
  }

  lemma LowFlags(flags: set<Flag>, mask: uint32, mid: nat)
    requires mask == 0x40 * Digit(flags, MovedFrom) + 0x80 * Digit(flags, MovedTo) + 0x100 * Digit(flags, Create)
                     + 0x400 * mid
    ensures Tells(mask, flags, MovedFrom) && Tells(mask, flags, MovedTo) && Tells(mask, flags, Create)
  {
    var a, b, c := Digit(flags, MovedFrom), Digit(flags, MovedTo), Digit(flags, Create);
    TestBit(mask, 0x40, 0, a, b + 2 * c + 8 * mid);
    TestBit(mask, 0x80, 0x40 * a, b, c + 4 * mid);
    TestBit(mask, 0x100, 0x40 * a + 0x80 * b, c, 2 * mid);
  }

  lemma MiddleFlags(flags: set<Flag>, mask: uint32, low: nat, high: nat)
    requires mask == low + 0x400 * Digit(flags, DeleteSelf) + 0x800 * Digit(flags, MoveSelf) + 0x2000 * high
    requires low < 0x400
    ensures Tells(mask, flags, DeleteSelf) && Tells(mask, flags, MoveSelf)
  {
    var a, b := Digit(flags, DeleteSelf), Digit(flags, MoveSelf);
    TestBit(mask, 0x400, low, a, b + 4 * high);
    TestBit(mask, 0x800, low + 0x400 * a, b, 2 * high);
  }

  lemma HighFlags(flags: set<Flag>, mask: uint32, low: nat)
    requires mask == low + 0x2000 * Digit(flags, Unmount) + 0x4000 * Digit(flags, Overflow)
                     + 0x8000 * Digit(flags, Ignored) + 0x4000_0000 * Digit(flags, IsDir)
    requires low < 0x2000
    ensures Tells(mask, flags, Unmount) && Tells(mask, flags, Overflow)
    ensures Tells(mask, flags, Ignored) && Tells(mask, flags, IsDir)
  {
    var a, b, c, d := Digit(flags, Unmount), Digit(flags, Overflow), Digit(flags, Ignored), Digit(flags, IsDir);
    TestBit(mask, 0x2000, low, a, b + 2 * c + 0x1_0000 * d);
    TestBit(mask, 0x4000, low + 0x2000 * a, b, c + 0x8000 * d);
    TestBit(mask, 0x8000, low + 0x2000 * a + 0x4000 * b, c, 0x4000 * d);
    TestBit(mask, 0x4000_0000, low + 0x2000 * a + 0x4000 * b + 0x8000 * c, d, 0);
  }

  lemma EveryFlagTells(flags: set<Flag>, f: Flag)
    ensures Tells(MaskOf(flags), flags, f)
  {
    var top := 4 * Digit(flags, Ignored) + 0x2_0000 * Digit(flags, IsDir);
    var high := Digit(flags, Unmount) + 2 * Digit(flags, Overflow) + top;
    var mid := Digit(flags, DeleteSelf) + 2 * Digit(flags, MoveSelf) + 8 * high;
    var low := 0x40 * Digit(flags, MovedFrom) + 0x80 * Digit(flags, MovedTo) + 0x100 * Digit(flags, Create);
    LowFlags(flags, MaskOf(flags), mid);
    MiddleFlags(flags, MaskOf(flags), low, high);
    HighFlags(flags, MaskOf(flags), low + 0x400 * Digit(flags, DeleteSelf) + 0x800 * Digit(flags, MoveSelf));
  }

  lemma FlagsAre(mask: uint32, flags: set<Flag>)
    requires forall f: Flag :: Tells(mask, flags, f)
    ensures FlagsOf(mask) == flags
  {
    forall f: Flag ensures f in FlagsOf(mask) <==> f in flags {
      assert Tells(mask, flags, f);
    }
  }

  lemma FlagsRoundTrip(flags: set<Flag>)
    ensures FlagsOf(MaskOf(flags)) == flags
  {
    forall f: Flag ensures Tells(MaskOf(flags), flags, f) {
      EveryFlagTells(flags, f);
    }
    FlagsAre(MaskOf(flags), flags);
  }

  /** A name of bytes other than null, with room for the terminating one. */
  predicate NameFits(name: string) {
    |name| <= NAME_MAX && forall i :: 0 <= i < |name| ==> 0 < name[i] as int < 0x100
  }

  function NameBytes(name: string): (bs: seq<byte>)
    requires forall i :: 0 <= i < |name| ==> 0 < name[i] as int < 0x100
    ensures |bs| == |name| + 1
  {
    if name == "" then [0] else [name[0] as int] + NameBytes(name[1..])
  }

  lemma {:induction false} NameRoundTrip(name: string)
    requires forall i :: 0 <= i < |name| ==> 0 < name[i] as int < 0x100
    ensures CString(NameBytes(name)) == name
    decreases |name|
  {
    if name != "" {
      NameRoundTrip(name[1..]);
      assert NameBytes(name)[1..] == NameBytes(name[1..]);
    }
  }

  predicate Fits(e: Event) {
    -0x8000_0000 <= e.wd < 0x8000_0000 && e.cookie < 0x1_0000_0000 && NameFits(e.name)
  }

  function RecordOf(e: Event): (r: seq<byte>)
    requires Fits(e)
  {
    PutInt32(e.wd) + Put32(MaskOf(e.flags)) + Put32(e.cookie) + Put32(|e.name| + 1) + NameBytes(e.name)
  }

  lemma EventRoundTrip(e: Event)
    requires Fits(e)
    ensures IsRecord(RecordOf(e)) && EventOf(RecordOf(e)) == e
  {
    var r := RecordOf(e);
    assert r[..4] == PutInt32(e.wd) && r[4..8] == Put32(MaskOf(e.flags));
    assert r[8..12] == Put32(e.cookie) && r[12..16] == Put32(|e.name| + 1) && r[16..] == NameBytes(e.name);
    GetPutInt32(e.wd);
    GetPut32(MaskOf(e.flags));
    GetPut32(e.cookie);
    GetPut32(|e.name| + 1);
    FlagsRoundTrip(e.flags);
    NameRoundTrip(e.name);
  }

  /** The bytes as the kernel lays them out: a directory "d" moved from the directory with
      watch descriptor 3, with cookie 7. */
  lemma SampleRecord()
    ensures var r := [3, 0, 0, 0, 0x40, 0, 0, 0x40, 7, 0, 0, 0, 2, 0, 0, 0, 'd' as int, 0];
            IsRecord(r) && EventOf(r) == Event(3, {MovedFrom, IsDir}, 7, "d")
  {
    var e := Event(3, {MovedFrom, IsDir}, 7, "d");
    SampleBytes(e);
    EventRoundTrip(e);
  }

  lemma SampleBytes(e: Event)
    requires e == Event(3, {MovedFrom, IsDir}, 7, "d")
    ensures RecordOf(e) == [3, 0, 0, 0, 0x40, 0, 0, 0x40, 7, 0, 0, 0, 2, 0, 0, 0, 'd' as int, 0]
  {
    assert MaskOf(e.flags) == 0x4000_0040;
    assert e.name[1..] == "";
    assert NameBytes(e.name) == ['d' as int, 0];
  }

  /** So a stream of such events is what some bytes say. */
  lemma {:induction false} StreamRoundTrip(es: seq<Event>) returns (rs: seq<Record>)
    requires forall i :: 0 <= i < |es| ==> Fits(es[i])
    ensures Events(rs) == es
    decreases |es|
  {
    if es == [] {
      rs := [];
    } else {
      EventRoundTrip(es[0]);
      var rest := StreamRoundTrip(es[1..]);
      rs := [RecordOf(es[0])] + rest;
    }
  }
}
