/** The pool of loopback addresses 127.0.1.1 to 127.0.1.254. */
module IpAlloc {
  import opened Text

  type Byte = n: int | 0 <= n < 256

  /** A `net.IP`: nil, an IPv4 address, or anything `To4` turns into nil. */
  datatype IP = NoIP | V4(a: Byte, b: Byte, c: Byte, d: Byte) | Other

  function Show(ip: IP): AsciiText {
    match ip
    case V4(a, b, c, d) =>
      ItoaAscii(a);
      ItoaAscii(b);
      ItoaAscii(c);
      ItoaAscii(d);
      Itoa(a) + "." + Itoa(b) + "." + Itoa(c) + "." + Itoa(d)
    case NoIP => "<nil>"
    case Other => "?"
  }

  /** The address a dotted-decimal text stands for. */
  function ReadAddress(s: string): IP {
    var parts := Split('.', s);
    if |parts| != 4 then NoIP
    else
      var a, b, c, d := Atoi(parts[0]), Atoi(parts[1]), Atoi(parts[2]), Atoi(parts[3]);
      if 0 <= a < 256 && 0 <= b < 256 && 0 <= c < 256 && 0 <= d < 256 then V4(a, b, c, d) else NoIP
  }

  lemma ItoaNoDot(n: nat)
    ensures '.' !in Itoa(n)
  {
    DigitsCanonical(n);
    assert forall c :: c in Itoa(n) ==> IsDigit(c);
  }

  lemma ShowSplits(a: Byte, b: Byte, c: Byte, d: Byte)
    ensures Split('.', Show(V4(a, b, c, d))) == [Itoa(a), Itoa(b), Itoa(c), Itoa(d)]
  {
    ItoaNoDot(a);
    ItoaNoDot(b);
    ItoaNoDot(c);
    ItoaNoDot(d);
    DottedSplits(Itoa(a), Itoa(b), Itoa(c), Itoa(d));
  }

  lemma DottedSplits(a: string, b: string, c: string, d: string)
    requires '.' !in a && '.' !in b && '.' !in c && '.' !in d
    ensures Split('.', a + "." + b + "." + c + "." + d) == [a, b, c, d]
  {
    SplitNoSep('.', a);
    SplitNoSep('.', b);
    SplitNoSep('.', c);
    SplitNoSep('.', d);
    SplitAppend('.', a, b);
    SplitAppend('.', a + ['.'] + b, c);
    SplitAppend('.', a + ['.'] + b + ['.'] + c, d);
    assert a + "." + b + "." + c + "." + d == a + ['.'] + b + ['.'] + c + ['.'] + d;
  }

  /** An address reads back from its text. */
  lemma ShowReads(ip: IP)
    requires ip.V4?
    ensures ReadAddress(Show(ip)) == ip
  {
    ShowSplits(ip.a, ip.b, ip.c, ip.d);
    AtoiItoa(ip.a);
    AtoiItoa(ip.b);
    AtoiItoa(ip.c);
    AtoiItoa(ip.d);
  }

  function Loopback(d: Byte): IP {
    V4(127, 0, 1, d)
  }

  /** The last bytes of the addresses the daemon may hand out. */
  predicate InPool(i: int) {
    1 <= i <= 254
  }

  /** The least address byte from i on that is not in use, or 255 when there is none. */
  function FirstFree(used: set<int>, i: nat): (r: Byte)
    requires i <= 255
    ensures i <= r <= 255
    ensures r < 255 ==> r !in used
    ensures forall j :: i <= j < r ==> j in used
    decreases 255 - i
  {
    if i == 255 || i !in used then i else FirstFree(used, i + 1)
  }

  /** The pool is exhausted exactly when 254 addresses are out. */
  lemma ExhaustedIff(used: set<int>)
    requires forall i :: i in used ==> InPool(i)
    ensures |used| <= 254
    ensures FirstFree(used, 1) == 255 <==> |used| == 254
  {
    BoundedSize(used, 254);
  }

  lemma {:induction false} BoundedSize(s: set<int>, n: nat)
    requires forall i :: i in s ==> 1 <= i <= n
    ensures |s| <= n
    ensures |s| == n <==> forall i :: 1 <= i <= n ==> i in s
  {
    if n == 0 {
      assert forall i :: i !in s;
    } else {
      BoundedSize(s - {n}, n - 1);
      if n in s {
        assert s == (s - {n}) + {n};
        assert forall i :: 1 <= i <= n - 1 ==> (i in s <==> i in s - {n});
      } else {
        assert s == s - {n};
      }
    }
  }

  class Allocator {
    var used: map<int, bool>

    ghost predicate Valid()
      reads this
    {
      forall i :: i in used ==> used[i] && InPool(i)
    }

    ghost function InUse(): set<int>
      reads this
    {
      used.Keys
    }

    constructor ()
      ensures Valid() && InUse() == {}
    {
      used := map[];
    }

    /** Takes the lowest free address; NoIP is the pool-exhausted error. */
    method Allocate() returns (ip: IP)
      requires Valid()
      modifies this
      ensures Valid()
      ensures ip == NoIP <==> forall j :: InPool(j) ==> j in old(InUse())
      ensures ip == NoIP ==> InUse() == old(InUse())
      ensures ip != NoIP ==> ip.V4? && ip == Loopback(ip.d) && 1 <= ip.d <= 254
      ensures ip != NoIP ==> ip.d !in old(InUse()) && (forall j :: 1 <= j < ip.d ==> j in old(InUse()))
      ensures ip != NoIP ==> InUse() == old(InUse()) + {ip.d}
      ensures ip == NoIP <==> FirstFree(old(InUse()), 1) == 255
      ensures ip != NoIP ==> ip.d == FirstFree(old(InUse()), 1)
    {
      var i: Byte := 1;
      while i < 255
        invariant 1 <= i <= 255
        invariant used == old(used)
        invariant forall j :: 1 <= j < i ==> j in used
      {
        if i !in used || !used[i] {
          used := used[i := true];
          return Loopback(i);
        }
        i := i + 1;
      }
      return NoIP;
    }

    /** Addresses outside 127.0.1.0/24 are ignored. */
    method Free(ip: IP)
      requires Valid()
      modifies this
      ensures Valid()
      ensures InUse() == if ip.V4? && ip == Loopback(ip.d) then old(InUse()) - {ip.d} else old(InUse())
    {
      if !ip.V4? || ip.a != 127 || ip.b != 0 || ip.c != 1 {
        return;
      }
      used := used - {ip.d};
    }
  }
}
