/** kubectl port-forward command lines: what the regular expression finds in a line of tokens. */
module KubectlLine {
  import opened Options
  import opened Text
  import opened Scanner
  import opened CommandLine

  /* Matches in a text of two parts separated by a space */

  predicate IsKey(key: string) {
    key != "" && All(NotSpace, key)
  }

  lemma BoundaryLeft(a: string, b: string, i: nat)
    requires i <= |a|
    ensures Boundary(a + " " + b, i) == Boundary(a, i)
  {
    var s := a + " " + b;
    assert WordAt(s, i - 1) == WordAt(a, i - 1);
    assert s[|a|] == ' ';
    assert WordAt(s, i) == WordAt(a, i);
  }

  lemma BoundaryRight(a: string, b: string, j: nat)
    requires j <= |b|
    ensures Boundary(a + " " + b, |a| + 1 + j) == Boundary(b, j)
  {
    var s := a + " " + b;
    assert s[|a|] == ' ';
    assert j > 0 ==> s[|a| + j] == b[j - 1];
    assert j < |b| ==> s[|a| + 1 + j] == b[j];
    assert WordAt(s, |a| + j) == WordAt(b, j - 1);
    assert WordAt(s, |a| + 1 + j) == WordAt(b, j);
  }

  /** A match that begins in the left part lies within it. */
  lemma MatchStaysLeft(a: string, b: string, key: string, i: nat, m: nat)
    requires IsKey(key) && i <= |a| && PairMatch(a + " " + b, key, i, m)
    ensures i + |key| + 1 + m <= |a|
  {
    var s, probe, start := a + " " + b, key + ":", i + |key| + 1;
    assert s[|a|] == ' ';
    assert forall k :: 0 <= k < |probe| ==> NotSpace(probe[k]);
    assert forall k :: i <= k < i + |probe| ==> s[k] == s[i..i + |probe|][k - i] == probe[k - i];
    assert forall k :: start <= k < start + m ==> s[k] == s[start..start + m][k - start];
  }

  lemma MatchLeft(a: string, b: string, key: string, i: nat, m: nat)
    requires IsKey(key) && i <= |a| && i + |key| + 1 + m <= |a|
    ensures PairMatch(a + " " + b, key, i, m) == PairMatch(a, key, i, m)
  {
    var s, start := a + " " + b, i + |key| + 1;
    BoundaryLeft(a, b, i);
    BoundaryLeft(a, b, start + m);
    assert s[i..start] == a[i..start];
    assert s[start..start + m] == a[start..start + m];
  }

  lemma MatchRight(a: string, b: string, key: string, j: nat, m: nat)
    requires j <= |b|
    ensures PairMatch(a + " " + b, key, |a| + 1 + j, m) == PairMatch(b, key, j, m)
  {
    var start := j + |key| + 1;
    BoundaryRight(a, b, j);
    if start + m <= |b| {
      BoundaryRight(a, b, start + m);
      GroupRight(a, b, j, |key| + 1);
      GroupRight(a, b, start, m);
    }
  }

  lemma GroupRight(a: string, b: string, start: nat, m: nat)
    requires start + m <= |b|
    ensures (a + " " + b)[|a| + 1 + start..|a| + 1 + start + m] == b[start..start + m]
  {
  }

  lemma PairAtLeft(a: string, b: string, key: string, i: nat)
    requires IsKey(key) && i <= |a|
    ensures PairAt(a + " " + b, key, i) == PairAt(a, key, i)
  {
    var s, start := a + " " + b, i + |key| + 1;
    PairAtIff(s, key, i);
    PairAtIff(a, key, i);
    if m: nat :| PairMatch(s, key, i, m) {
      MatchStaysLeft(a, b, key, i, m);
      MatchLeft(a, b, key, i, m);
      assert s[start..start + m] == a[start..start + m];
    } else if m: nat :| PairMatch(a, key, i, m) {
      MatchLeft(a, b, key, i, m);
    }
  }

  lemma PairAtRight(a: string, b: string, key: string, j: nat)
    requires j <= |b|
    ensures PairAt(a + " " + b, key, |a| + 1 + j) == PairAt(b, key, j)
  {
    var s, i := a + " " + b, |a| + 1 + j;
    PairAtIff(s, key, i);
    PairAtIff(b, key, j);
    if m: nat :| PairMatch(b, key, j, m) {
      PairAtRightSome(a, b, key, j, m);
    } else {
      forall m: nat
        ensures !PairMatch(s, key, i, m)
      {
        MatchRight(a, b, key, j, m);
      }
    }
  }

  lemma PairAtRightSome(a: string, b: string, key: string, j: nat, m: nat)
    requires j <= |b| && PairMatch(b, key, j, m)
    ensures PairAt(a + " " + b, key, |a| + 1 + j) == PairAt(b, key, j)
  {
    var s, i, start := a + " " + b, |a| + 1 + j, j + |key| + 1;
    MatchRight(a, b, key, j, m);
    GroupRight(a, b, start, m);
    PairAtIff(b, key, j);
    assert PairAt(b, key, j) == Some(b[start..start + m]);
    PairAtIff(s, key, i);
    assert PairMatch(s, key, i, m);
    assert PairAt(s, key, i) == Some(s[i + |key| + 1..i + |key| + 1 + m]);
  }

  lemma {:induction false} FindRight(a: string, b: string, key: string, j: nat)
    requires j <= |b|
    ensures FindPair(a + " " + b, key, |a| + 1 + j) == FindPair(b, key, j)
    decreases |b| - j
  {
    PairAtRight(a, b, key, j);
    if j < |b| {
      FindRight(a, b, key, j + 1);
    }
  }

  lemma {:induction false} FindLeft(a: string, b: string, key: string, i: nat)
    requires IsKey(key) && i <= |a|
    ensures FindPair(a + " " + b, key, i) ==
            if FindPair(a, key, i).Some? then FindPair(a, key, i) else FindPair(b, key, 0)
    decreases |a| - i
  {
    PairAtLeft(a, b, key, i);
    if i < |a| {
      FindLeft(a, b, key, i + 1);
    } else {
      FindRight(a, b, key, 0);
    }
  }

  /** The first token with a match decides. */
  function FindInTokens(tokens: seq<string>, key: string): Option<string> {
    if tokens == [] then None
    else if FindPair(tokens[0], key, 0).Some? then FindPair(tokens[0], key, 0)
    else FindInTokens(tokens[1..], key)
  }

  lemma {:induction false} FindInLine(tokens: seq<string>, key: string)
    requires IsKey(key)
    ensures FindPair(Join(' ', tokens), key, 0) == FindInTokens(tokens, key)
  {
    if tokens == [] {
      assert Join(' ', tokens) == "";
    } else if |tokens| == 1 {
      assert FindInTokens(tokens[1..], key) == None;
    } else {
      FindInLine(tokens[1..], key);
      FindLeft(tokens[0], Join(' ', tokens[1..]), key, 0);
    }
  }

  /* Matches in one token */

  lemma {:induction false} NoColonNoMatch(t: string, key: string, i: nat)
    requires ':' !in t && i <= |t|
    ensures FindPair(t, key, i) == None
    decreases |t| - i
  {
    PairAtIff(t, key, i);
    forall m: nat
      ensures !PairMatch(t, key, i, m)
    {
      if i + |key| < |t| {
        assert t[i..i + |key| + 1] == key + ":" ==> t[i + |key|] == (key + ":")[|key|];
      }
    }
    if i < |t| {
      NoColonNoMatch(t, key, i + 1);
    }
  }

  /** In `A:B` only the whole of A can be the key: inside a longer number the word boundary is missing. */
  lemma PairTokenMatch(a: nat, b: nat, p: int, i: nat, m: nat)
    requires PairMatch(Itoa(a) + ":" + Itoa(b), Itoa(p), i, m)
    ensures i == 0 && p == a && m == |Itoa(b)|
  {
    var A, B, P := Itoa(a), Itoa(b), Itoa(p);
    var t := A + ":" + B;
    ItoaPlain(a);
    ItoaPlain(b);
    assert t[i + |P|] == t[i..i + |P| + 1][|P|] == ':';
    assert i + |P| == |A| by {
      assert forall k :: 0 <= k < |A| ==> t[k] == A[k] && t[k] != ':';
      assert forall k :: |A| < k < |t| ==> t[k] == B[k - |A| - 1] && t[k] != ':';
    }
    assert P == t[i..i + |P| + 1][..|P|];
    assert P == A[i..];
    assert WordAt(t, i) && (i > 0 ==> WordAt(t, i - 1));
    ItoaInjective(p, a);
    var end := |A| + 1 + m;
    assert m < |B| ==> WordAt(t, end - 1) && WordAt(t, end);
  }

  lemma PairTokenIsMatch(a: nat, b: nat)
    ensures PairMatch(Itoa(a) + ":" + Itoa(b), Itoa(a), 0, |Itoa(b)|)
    ensures PairAt(Itoa(a) + ":" + Itoa(b), Itoa(a), 0) == Some(Itoa(b))
  {
    var A, B := Itoa(a), Itoa(b);
    var t := A + ":" + B;
    ItoaPlain(a);
    ItoaPlain(b);
    assert t[0] == A[0] && WordAt(t, 0);
    assert t[0..|A| + 1] == A + ":";
    assert t[|A| + 1..|A| + 1 + |B|] == B;
    assert t[|t| - 1] == B[|B| - 1] && WordAt(t, |t| - 1);
    var m: nat := |B|;
    assert All(IsDigit, B);
    assert PairMatch(t, A, 0, m);
    PairAtIff(t, A, 0);
    assert t[0 + |A| + 1..0 + |A| + 1 + m] == B;
  }

  lemma {:induction false} PairTokenFind(a: nat, b: nat, p: int, i: nat)
    requires i <= |Itoa(a) + ":" + Itoa(b)|
    ensures FindPair(Itoa(a) + ":" + Itoa(b), Itoa(p), i) == if i == 0 && p == a then Some(Itoa(b)) else None
    decreases |Itoa(a) + ":" + Itoa(b)| - i
  {
    var t := Itoa(a) + ":" + Itoa(b);
    if i == 0 && p == a {
      PairTokenIsMatch(a, b);
    } else {
      PairAtIff(t, Itoa(p), i);
      forall m: nat
        ensures !PairMatch(t, Itoa(p), i, m)
      {
        if PairMatch(t, Itoa(p), i, m) {
          PairTokenMatch(a, b, p, i, m);
        }
      }
      if i < |t| {
        PairTokenFind(a, b, p, i + 1);
      }
    }
  }

  /* Whole lines */

  /** What follows the resource: port pairs and tokens without a colon, in any order. */
  datatype Item = Pair(local: nat, remote: nat) | Other(token: string)

  predicate GoodItem(x: Item) {
    match x
    case Pair(a, b) => IsInt64(a) && IsInt64(b)
    case Other(t) => IsToken(t) && ':' !in t
  }

  function ItemText(x: Item): string {
    match x
    case Pair(a, b) => Itoa(a) + ":" + Itoa(b)
    case Other(t) => t
  }

  function ItemTexts(items: seq<Item>): seq<string> {
    if items == [] then [] else [ItemText(items[0])] + ItemTexts(items[1..])
  }

  /** A command line: options, the port-forward command, kind/name or just a name, then pairs. */
  datatype Line = Line(before: seq<string>, kind: Option<string>, name: string, items: seq<Item>)

  predicate GoodLine(l: Line) {
    && (forall i :: 0 <= i < |l.before| ==>
        IsToken(l.before[i]) && ':' !in l.before[i] && l.before[i] != "port-forward")
    && IsField(l.name)
    && (if l.kind.Some? then IsField(l.kind.value) && '/' !in l.kind.value else l.name != "" && '/' !in l.name)
    && (forall i :: 0 <= i < |l.items| ==> GoodItem(l.items[i]))
  }

  function ResourceText(l: Line): string {
    if l.kind.Some? then l.kind.value + "/" + l.name else l.name
  }

  function LineTokens(l: Line): seq<string> {
    l.before + ["port-forward", ResourceText(l)] + ItemTexts(l.items)
  }

  function PrintLine(l: Line): AsciiText
    requires GoodLine(l)
  {
    ItemTokens(l.items);
    assert IsToken("port-forward");
    JoinAscii(' ', LineTokens(l));
    Join(' ', LineTokens(l))
  }

  /** The remote port of the first pair for this local port, 0 if there is none. */
  function FirstRemote(items: seq<Item>, localPort: int): int {
    if items == [] then 0
    else if items[0].Pair? && items[0].local == localPort then items[0].remote
    else FirstRemote(items[1..], localPort)
  }

  lemma {:induction false} ItemTokens(items: seq<Item>)
    requires forall i :: 0 <= i < |items| ==> GoodItem(items[i])
    ensures forall i :: 0 <= i < |ItemTexts(items)| ==> IsToken(ItemTexts(items)[i])
  {
    if items != [] {
      if items[0].Pair? {
        ItoaPlain(items[0].local);
        ItoaPlain(items[0].remote);
      }
      ItemTokens(items[1..]);
    }
  }

  lemma LineIsTokens(l: Line)
    requires GoodLine(l)
    ensures Fields(PrintLine(l)) == LineTokens(l)
  {
    ItemTokens(l.items);
    FieldsJoin(LineTokens(l));
  }

  lemma {:induction false} IndexOfFirst(c: char, a: string, b: string)
    requires c !in a
    ensures IndexOf(c, a + [c] + b) == |a|
  {
    var s := a + [c] + b;
    if a != "" {
      IndexOfFirst(c, a[1..], b);
      assert s[1..] == a[1..] + [c] + b;
    }
  }

  lemma {:induction false} IndexOfNone(c: char, s: string)
    requires c !in s
    ensures IndexOf(c, s) == -1
  {
    if s != "" {
      IndexOfNone(c, s[1..]);
    }
  }

  /** The kind in front of the first slash is dropped, and a name without one is left alone. */
  lemma ResourceNamed(l: Line)
    requires GoodLine(l)
    ensures StripResourcePrefix(ResourceText(l)) == l.name
  {
    if l.kind.Some? {
      IndexOfFirst('/', l.kind.value, l.name);
      assert ResourceText(l) == l.kind.value + ['/'] + l.name;
      assert ResourceText(l)[|l.kind.value| + 1..] == l.name;
    } else {
      IndexOfNone('/', l.name);
    }
  }

  lemma {:induction false} ResourceFound(before: seq<string>, resource: string, rest: seq<string>)
    requires forall i :: 0 <= i < |before| ==> before[i] != "port-forward"
    ensures ResourceOf(before + ["port-forward", resource] + rest) == StripResourcePrefix(resource)
  {
    var fields := before + ["port-forward", resource] + rest;
    if before == [] {
      assert fields[1] == resource;
    } else {
      ResourceFound(before[1..], resource, rest);
      assert fields[1..] == before[1..] + ["port-forward", resource] + rest;
    }
  }

  lemma {:induction false} PairsFound(items: seq<Item>, localPort: int)
    requires forall i :: 0 <= i < |items| ==> GoodItem(items[i])
    ensures var g := FindInTokens(ItemTexts(items), Itoa(localPort));
      (if g.Some? then Atoi(g.value) else 0) == FirstRemote(items, localPort)
  {
    if items != [] {
      assert ItemTexts(items)[1..] == ItemTexts(items[1..]);
      match items[0] {
        case Pair(a, b) =>
          PairTokenFind(a, b, localPort, 0);
          AtoiItoa(b);
        case Other(t) =>
          NoColonNoMatch(t, Itoa(localPort), 0);
      }
      PairsFound(items[1..], localPort);
    }
  }

  lemma {:induction false} NothingBefore(before: seq<string>, rest: seq<string>, key: string)
    requires forall i :: 0 <= i < |before| ==> ':' !in before[i]
    ensures FindInTokens(before + rest, key) == FindInTokens(rest, key)
  {
    if before == [] {
      assert before + rest == rest;
    } else {
      NoColonNoMatch(before[0], key, 0);
      NothingBefore(before[1..], rest, key);
      assert (before + rest)[1..] == before[1..] + rest;
    }
  }

  /** Parsing a printed kubectl command line gives the resource name and the remote port of the first pair for the
      local port. */
  lemma KubectlRoundTrip(l: Line, localPort: int)
    requires GoodLine(l)
    ensures ResourceOf(Fields(PrintLine(l))) == l.name
    ensures KubectlPort(PrintLine(l), localPort) == FirstRemote(l.items, localPort)
  {
    LineIsTokens(l);
    ResourceFound(l.before, ResourceText(l), ItemTexts(l.items));
    ResourceNamed(l);
    KeyShape(localPort);
    FindInLine(LineTokens(l), Itoa(localPort));
    NothingBefore(l.before + ["port-forward", ResourceText(l)], ItemTexts(l.items), Itoa(localPort));
    PairsFound(l.items, localPort);
  }

  lemma KeyShape(n: int)
    ensures IsKey(Itoa(n))
  {
    ItoaChars(n);
    var key := Itoa(n);
    assert forall i :: 0 <= i < |key| ==> key[i] in key;
  }

  /* Classification */

  /** Every printed command line that mentions kubectl is classified as a kubectl forward. */
  lemma KubectlClassified(l: Line)
    requires GoodLine(l) && "kubectl" in l.before
    ensures ClassifyKubectl(PrintLine(l))
  {
    LineIsTokens(l);
    var line := PrintLine(l);
    var k :| 0 <= k < |l.before| && l.before[k] == "kubectl";
    assert Fields(line)[k] == "kubectl" && Lower("kubectl") == "kubectl";
    TokenContained(line, k);
    assert Fields(line)[|l.before|] == "port-forward" && Lower("port-forward") == "port-forward";
    TokenContained(line, |l.before|);
  }

  /* Which parser a tool's command line goes to */

  /** An ssh line yields a host and a port, a kubectl line a port and a resource, and any other tool's line nothing. */
  lemma RemoteInfo(args: seq<Arg>, l: Line, cmdline: AsciiText, tool: string, localPort: int)
    requires (forall i :: 0 <= i < |args| ==> GoodArg(args[i])) && GoodLine(l) && tool != "ssh" && tool != "kubectl"
    ensures var (host, port) := FirstForward(args, localPort);
      ParseRemoteInfo("ssh", Print(args), localPort) == (host, port, "")
    ensures ParseRemoteInfo("kubectl", PrintLine(l), localPort) == ("", FirstRemote(l.items, localPort), l.name)
    ensures ParseRemoteInfo(tool, cmdline, localPort) == ("", 0, "")
  {
    SshRoundTrip(args, localPort);
    KubectlRoundTrip(l, localPort);
  }

  /* Word boundaries */

  predicate EndsWord(l: string) {
    l != "" && IsWord(Last(l))
  }

  predicate StartsWord(r: string) {
    r != "" && IsWord(r[0])
  }

  /** Inside a longer text a pair, its second number being whole, is found exactly if no word character touches it on
      either side. */
  lemma SurroundedPair(l: string, a: nat, b: nat, r: string)
    requires ':' !in l && ':' !in r && (r != "" ==> !IsDigit(r[0]))
    ensures FindPair(l + Itoa(a) + ":" + Itoa(b) + r, Itoa(a), 0) ==
            if EndsWord(l) || StartsWord(r) then None else Some(Itoa(b))
  {
    ItoaPlain(a);
    ItoaPlain(b);
    Surrounded(l, Itoa(a), Itoa(b), r);
    FindOnlyAt(l + Itoa(a) + ":" + Itoa(b) + r, Itoa(a), 0, |l|);
  }

  lemma {:induction false} FindOnlyAt(s: string, key: string, i: nat, at: nat)
    requires i <= at <= |s| && forall k: nat :: k != at ==> PairAt(s, key, k) == None
    ensures FindPair(s, key, i) == PairAt(s, key, at)
    decreases at - i
  {
    if i < at {
      FindOnlyAt(s, key, i + 1, at);
    } else {
      FindNone(s, key, i);
    }
  }

  lemma {:induction false} FindNone(s: string, key: string, i: nat)
    requires i <= |s| && forall k: nat :: k > i ==> PairAt(s, key, k) == None
    ensures FindPair(s, key, i) == PairAt(s, key, i)
    decreases |s| - i
  {
    if i < |s| {
      FindNone(s, key, i + 1);
    }
  }

  lemma Surrounded(l: string, A: string, B: string, r: string)
    requires ':' !in l && ':' !in r && A != "" && B != "" && All(IsDigit, A) && All(IsDigit, B)
    requires r != "" ==> !IsDigit(r[0])
    ensures var s := l + A + ":" + B + r;
      && (forall k: nat :: k != |l| ==> PairAt(s, A, k) == None)
      && PairAt(s, A, |l|) == if EndsWord(l) || StartsWord(r) then None else Some(B)
  {
    var s := l + A + ":" + B + r;
    forall k: nat | k != |l|
      ensures PairAt(s, A, k) == None
    {
      PairAtIff(s, A, k);
      forall m: nat
        ensures !PairMatch(s, A, k, m)
      {
        if PairMatch(s, A, k, m) {
          OneColon(l, A, B, r, k);
          assert false;
        }
      }
    }
    SurroundedHere(l, A, B, r);
  }

  lemma OneColon(l: string, A: string, B: string, r: string, k: nat)
    requires ':' !in l && ':' !in r && All(IsDigit, A) && All(IsDigit, B)
    requires OccursAt(A + ":", l + A + ":" + B + r, k)
    ensures k == |l|
  {
    var s, c := l + A + ":" + B + r, |l| + |A|;
    assert s[k..k + |A| + 1][|A|] == (A + ":")[|A|];
    assert s[k + |A|] == ':';
    forall i | 0 <= i < |s| && i != c
      ensures s[i] != ':'
    {
      if i < |l| {
        assert s[i] == l[i];
      } else if i < c {
        assert s[i] == A[i - |l|];
      } else if i <= c + |B| {
        assert s[i] == B[i - c - 1];
      } else {
        assert s[i] == r[i - c - 1 - |B|];
      }
    }
  }

  lemma SurroundedHere(l: string, A: string, B: string, r: string)
    requires A != "" && B != "" && All(IsDigit, A) && All(IsDigit, B) && (r != "" ==> !IsDigit(r[0]))
    ensures PairAt(l + A + ":" + B + r, A, |l|) == if EndsWord(l) || StartsWord(r) then None else Some(B)
  {
    var s, i, start := l + A + ":" + B + r, |l|, |l| + |A| + 1;
    PairAtIff(s, A, i);
    SurroundedBounds(l, A, B, r);
    if EndsWord(l) || StartsWord(r) {
      forall m: nat
        ensures !PairMatch(s, A, i, m)
      {
        if PairMatch(s, A, i, m) {
          LongDigits(l, A, B, r, m);
          assert false;
        }
      }
    } else {
      var m: nat := |B|;
      assert s[start..start + m] == B && s[i..i + |A| + 1] == A + ":";
      assert PairMatch(s, A, i, m);
      assert PairAt(s, A, i) == Some(s[i + |A| + 1..i + |A| + 1 + m]);
    }
  }

  lemma SurroundedBounds(l: string, A: string, B: string, r: string)
    requires A != "" && B != "" && All(IsDigit, A) && All(IsDigit, B)
    ensures var s, end := l + A + ":" + B + r, |l| + |A| + 1 + |B|;
      && (Boundary(s, |l|) <==> !EndsWord(l)) && (Boundary(s, end) <==> !StartsWord(r))
  {
    var s, end := l + A + ":" + B + r, |l| + |A| + 1 + |B|;
    assert s[|l|] == A[0] && s[end - 1] == B[|B| - 1];
    assert l != "" ==> s[|l| - 1] == l[|l| - 1];
    assert r != "" ==> s[end] == r[0];
  }

  /** A match beginning at the pair takes exactly B. */
  lemma LongDigits(l: string, A: string, B: string, r: string, m: nat)
    requires A != "" && B != "" && All(IsDigit, A) && All(IsDigit, B) && (r != "" ==> !IsDigit(r[0]))
    requires PairMatch(l + A + ":" + B + r, A, |l|, m)
    ensures !EndsWord(l) && !StartsWord(r)
  {
    var s, start := l + A + ":" + B + r, |l| + |A| + 1;
    SurroundedBounds(l, A, B, r);
    assert forall k :: 0 <= k < |B| ==> s[start + k] == B[k];
    assert forall k :: 0 <= k < |r| ==> s[start + |B| + k] == r[k];
    assert m < |B| ==> WordAt(s, start + m - 1) && WordAt(s, start + m);
    var group := s[start..start + m];
    assert forall k :: 0 <= k < m ==> group[k] == s[start + k];
  }
}
