/** Recovering the remote host, port and resource of a forward from its command line, which is ASCII text here. */
module Scanner {
  import opened Options
  import opened Text

  predicate OccursAt(t: string, s: string, i: nat) {
    i + |t| <= |s| && s[i..i + |t|] == t
  }

  predicate Contains(s: string, t: string) {
    exists i :: 0 <= i <= |s| && OccursAt(t, s, i)
  }

  /* Classification */

  /** A match of -[a-zA-Z]*L from position i to position j. */
  predicate FlagAt(s: string, i: nat, j: nat) {
    i < j < |s| && s[i] == '-' && s[j] == 'L' && All(IsLetter, s[i + 1..j])
  }

  predicate MatchesLFlag(s: string) {
    exists i, j :: 0 <= i < |s| && 0 <= j < |s| && FlagAt(s, i, j)
  }

  predicate ClassifySSH(cmdline: AsciiText) {
    Contains(Lower(cmdline), "ssh") && MatchesLFlag(cmdline)
  }

  predicate ClassifyKubectl(cmdline: AsciiText) {
    Contains(Lower(cmdline), "kubectl") && Contains(Lower(cmdline), "port-forward")
  }

  /* ssh */

  const L_FLAG := "-L"

  /** All letters after the dash, an L among them, and not just -L. */
  predicate IsCombinedLFlag(f: string) {
    f != "" && f[0] == '-' && f != L_FLAG && All(IsLetter, f[1..]) && 'L' in f[1..]
  }

  method IsSSHCombinedLFlag(f: AsciiText) returns (r: bool)
    ensures r == IsCombinedLFlag(f)
  {
    if f == "" || f[0] != '-' || f == L_FLAG {
      return false;
    }
    var flags := f[1..];
    for i := 0 to |flags|
      invariant forall k :: 0 <= k < i ==> IsLetter(flags[k])
    {
      if !IsLetter(flags[i]) {
        return false;
      }
    }
    return 'L' in flags;
  }

  /** [bindaddr:]localPort:remoteHost:remotePort; ("", 0) when the local port does not match. */
  function SpecInfo(spec: string, localPort: int): (string, int) {
    var parts := Split(':', spec);
    if |parts| == 3 && Atoi(parts[0]) == localPort then (parts[1], Atoi(parts[2]))
    else if |parts| == 4 && Atoi(parts[1]) == localPort then (parts[2], Atoi(parts[3]))
    else ("", 0)
  }

  /** The forward specification the first token introduces, if it is an L flag. */
  function SpecOf(fields: seq<string>): Option<string>
    requires fields != []
  {
    var f := fields[0];
    if f == L_FLAG && 1 < |fields| then Some(fields[1])
    else if L_FLAG <= f && |f| > 2 then Some(f[2..])
    else if IsCombinedLFlag(f) && 1 < |fields| then Some(fields[1])
    else None
  }

  function SshInfo(fields: seq<string>, localPort: int): (string, int) {
    if fields == [] then ("", 0)
    else
      var spec := SpecOf(fields);
      if spec.Some? && SpecInfo(spec.value, localPort).1 > 0 then SpecInfo(spec.value, localPort)
      else SshInfo(fields[1..], localPort)
  }

  method ParseSSHInfo(cmdline: AsciiText, localPort: int) returns (host: string, port: int)
    ensures (host, port) == SshInfo(Fields(cmdline), localPort)
  {
    var fields := Fields(cmdline);
    RunsAscii(NotSpace, cmdline);
    for i := 0 to |fields|
      invariant SshInfo(fields[i..], localPort) == SshInfo(fields, localPort)
    {
      var f := fields[i];
      var spec := "";
      var found := true;
      ghost var rest := fields[i..];
      assert rest[0] == f && rest[1..] == fields[i + 1..];
      if f == L_FLAG && i + 1 < |fields| {
        spec := fields[i + 1];
      } else if L_FLAG <= f && |f| > 2 {
        spec := f[2..];
      } else {
        var combined := IsSSHCombinedLFlag(f);
        if combined && i + 1 < |fields| {
          spec := fields[i + 1];
        } else {
          found := false;
        }
      }
      assert SpecOf(rest) == if found then Some(spec) else None;
      if found {
        var (h, p) := SpecInfo(spec, localPort);
        if p > 0 {
          return h, p;
        }
      }
    }
    return "", 0;
  }

  /* kubectl */

  function IndexOf(c: char, s: string): int {
    if s == "" then -1
    else if s[0] == c then 0
    else
      var i := IndexOf(c, s[1..]);
      if i < 0 then -1 else i + 1
  }

  function StripResourcePrefix(s: string): string {
    var i := IndexOf('/', s);
    if 0 <= i < |s| then s[i + 1..] else s
  }

  function ResourceOf(fields: seq<string>): string {
    if fields == [] then ""
    else if fields[0] == "port-forward" && 1 < |fields| then StripResourcePrefix(fields[1])
    else ResourceOf(fields[1..])
  }

  predicate IsWord(c: char) {
    IsAlnum(c) || c == '_'
  }

  predicate WordAt(s: string, i: int) {
    0 <= i < |s| && IsWord(s[i])
  }

  /** \b between positions i-1 and i. */
  predicate Boundary(s: string, i: int) {
    WordAt(s, i - 1) != WordAt(s, i)
  }

  /** A match of \bKEY:(\d+)\b at position i whose group has m digits. */
  predicate PairMatch(s: string, key: string, i: nat, m: nat) {
    var start := i + |key| + 1;
    Boundary(s, i) && OccursAt(key + ":", s, i) && 1 <= m && start + m <= |s| && All(IsDigit, s[start..start + m]) &&
        Boundary(s, start + m)
  }

  function DigitRun(s: string, i: nat): (m: nat)
    requires i <= |s|
    ensures i + m <= |s|
    decreases |s| - i
  {
    if i < |s| && IsDigit(s[i]) then 1 + DigitRun(s, i + 1) else 0
  }

  /** The group of the match at position i, if there is one: greedy, so the whole run of digits. */
  function PairAt(s: string, key: string, i: nat): Option<string> {
    var start := i + |key| + 1;
    if start > |s| then None
    else
      var m := DigitRun(s, start);
      if PairMatch(s, key, i, m) then Some(s[start..start + m]) else None
  }

  /** The group of the leftmost match from position i on. */
  function FindPair(s: string, key: string, i: nat): Option<string>
    requires i <= |s|
    decreases |s| - i
  {
    if PairAt(s, key, i).Some? then PairAt(s, key, i)
    else if i == |s| then None
    else FindPair(s, key, i + 1)
  }

  function KubectlPort(cmdline: AsciiText, localPort: int): int {
    var group := FindPair(cmdline, Itoa(localPort), 0);
    if group.Some? then Atoi(group.value) else 0
  }

  method ParseKubectlInfo(cmdline: AsciiText, localPort: int) returns (resource: string, remotePort: int)
    ensures resource == ResourceOf(Fields(cmdline)) && remotePort == KubectlPort(cmdline, localPort)
  {
    var fields := Fields(cmdline);
    resource := "";
    var i := 0;
    while i < |fields|
      invariant 0 <= i <= |fields| && resource == ""
      invariant ResourceOf(fields[i..]) == ResourceOf(fields)
    {
      assert fields[i..][1..] == fields[i + 1..];
      if fields[i] == "port-forward" && i + 1 < |fields| {
        resource := StripResourcePrefix(fields[i + 1]);
        break;
      }
      i := i + 1;
    }
    var group := FindPair(cmdline, Itoa(localPort), 0);
    remotePort := 0;
    if group.Some? {
      remotePort := Atoi(group.value);
    }
  }

  function ParseRemoteInfo(tool: string, cmdline: AsciiText, localPort: int): (string, int, string) {
    if tool == "ssh" then
      var (host, port) := SshInfo(Fields(cmdline), localPort);
      (host, port, "")
    else if tool == "kubectl" then ("", KubectlPort(cmdline, localPort), ResourceOf(Fields(cmdline)))
    else ("", 0, "")
  }

  /* Remote ports are never negative, which the naming scheme relies on */

  lemma {:induction false} SshPortNonNegative(fields: seq<string>, localPort: int)
    ensures SshInfo(fields, localPort).1 >= 0
  {
    if fields != [] {
      SshPortNonNegative(fields[1..], localPort);
    }
  }

  lemma {:induction false} FindPairDigits(s: string, key: string, i: nat)
    requires i <= |s|
    ensures var g := FindPair(s, key, i); g.Some? ==> g.value != "" && All(IsDigit, g.value)
    decreases |s| - i
  {
    if PairAt(s, key, i).None? && i < |s| {
      FindPairDigits(s, key, i + 1);
    }
  }

  lemma RemotePortNonNegative(tool: string, cmdline: AsciiText, localPort: int)
    ensures ParseRemoteInfo(tool, cmdline, localPort).1 >= 0
  {
    SshPortNonNegative(Fields(cmdline), localPort);
    FindPairDigits(cmdline, Itoa(localPort), 0);
    var g := FindPair(cmdline, Itoa(localPort), 0);
    if g.Some? {
      assert IsDigit(g.value[0]);
    }
  }

  /* The regular expression */

  lemma {:induction false} DigitRunMaximal(s: string, i: nat)
    requires i <= |s|
    ensures var m := DigitRun(s, i);
      (forall k :: i <= k < i + m ==> IsDigit(s[k])) && (i + m < |s| ==> !IsDigit(s[i + m]))
    decreases |s| - i
  {
    if i < |s| && IsDigit(s[i]) {
      DigitRunMaximal(s, i + 1);
    }
  }

  /** The trailing word boundary leaves only the whole run of digits, so greedy matching loses nothing. */
  lemma PairAtIff(s: string, key: string, i: nat)
    ensures PairAt(s, key, i).Some? <==> exists m: nat :: PairMatch(s, key, i, m)
    ensures forall m: nat :: PairMatch(s, key, i, m) ==>
              PairAt(s, key, i) == Some(s[i + |key| + 1..i + |key| + 1 + m])
  {
    var start := i + |key| + 1;
    if start <= |s| {
      DigitRunMaximal(s, start);
      var n := DigitRun(s, start);
      forall m: nat | PairMatch(s, key, i, m)
        ensures m == n
      {
        var group := s[start..start + m];
        assert forall k :: 0 <= k < m ==> group[k] == s[start + k];
      }
    }
  }

  /* What the patterns mean */

  /** t occurs in s. */
  lemma ContainsIff(s: string, t: string)
    ensures Contains(s, t) <==> exists a, b :: s == a + t + b
  {
    if i :| 0 <= i <= |s| && OccursAt(t, s, i) {
      assert s == s[..i] + t + s[i + |t|..];
    }
    if a, b :| s == a + t + b {
      assert s[|a|..|a| + |t|] == t;
      assert OccursAt(t, s, |a|);
    }
  }

  ghost predicate FlagIn(s: string, a: string, letters: string, b: string) {
    s == a + "-" + letters + "L" + b && forall c :: c in letters ==> c in UPPER_LETTERS || c in LOWER_LETTERS
  }

  lemma AllLettersIff(s: string)
    ensures All(IsLetter, s) <==> forall c :: c in s ==> c in UPPER_LETTERS || c in LOWER_LETTERS
  {
    forall c | c in s
      ensures IsLetter(c) <==> c in UPPER_LETTERS || c in LOWER_LETTERS
    {
      LettersAndDigits(c);
    }
    assert forall i :: 0 <= i < |s| ==> s[i] in s;
  }

  lemma MatchesLFlagIff(s: string)
    ensures MatchesLFlag(s) <==> exists a, letters, b :: FlagIn(s, a, letters, b)
  {
    if i, j :| 0 <= i < |s| && 0 <= j < |s| && FlagAt(s, i, j) {
      AllLettersIff(s[i + 1..j]);
      assert s == s[..i] + "-" + s[i + 1..j] + "L" + s[j + 1..];
      assert FlagIn(s, s[..i], s[i + 1..j], s[j + 1..]);
    }
    if a, letters, b :| FlagIn(s, a, letters, b) {
      AllLettersIff(letters);
      var i, j := |a|, |a| + 1 + |letters|;
      assert s[i + 1..j] == letters;
      assert FlagAt(s, i, j);
    }
  }

  /** A command line is taken for an ssh forward exactly if it has `ssh` in it, in any case, and a dash followed by
      letters of which the last is L. */
  lemma ClassifySSHIff(cmdline: AsciiText)
    ensures ClassifySSH(cmdline) <==>
            && (exists a, b :: Lower(cmdline) == a + "ssh" + b)
            && (exists a, letters, b :: FlagIn(cmdline, a, letters, b))
  {
    ContainsIff(Lower(cmdline), "ssh");
    MatchesLFlagIff(cmdline);
  }

  lemma ClassifyKubectlIff(cmdline: AsciiText)
    ensures ClassifyKubectl(cmdline) <==>
            && (exists a, b :: Lower(cmdline) == a + "kubectl" + b)
            && (exists a, b :: Lower(cmdline) == a + "port-forward" + b)
  {
    ContainsIff(Lower(cmdline), "kubectl");
    ContainsIff(Lower(cmdline), "port-forward");
  }

  /** A specification without two or three colons forwards nothing. */
  lemma SpecRejected(spec: string, localPort: int)
    requires Colons(spec) != 2 && Colons(spec) != 3
    ensures SpecInfo(spec, localPort) == ("", 0)
  {
    SplitCount(spec);
  }

  function Colons(s: string): nat {
    if s == "" then 0 else Colons(s[1..]) + if s[0] == ':' then 1 else 0
  }

  lemma {:induction false} SplitCount(s: string)
    ensures |Split(':', s)| == Colons(s) + 1
  {
    if s != "" {
      SplitCount(s[1..]);
    }
  }

  lemma WordCharacters(c: char)
    ensures IsWord(c) <==> c in UPPER_LETTERS || c in LOWER_LETTERS || c in DIGITS || c == '_'
  {
    LettersAndDigits(c);
  }
}
