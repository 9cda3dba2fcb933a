/** Command lines and what the scanner reads from them: printing and parsing as inverse operations. */
module CommandLine {
  import opened Options
  import opened Text
  import opened Scanner

  predicate IsToken(t: string) {
    t != "" && Ascii(t) && All(NotSpace, t)
  }

  predicate IsField(t: string) {
    Ascii(t) && All(NotSpace, t) && ':' !in t
  }

  lemma FieldsJoin(tokens: seq<string>)
    requires forall i :: 0 <= i < |tokens| ==> IsToken(tokens[i])
    ensures Fields(Join(' ', tokens)) == tokens
  {
    RunsJoin(NotSpace, ' ', tokens);
  }

  lemma ItoaPlain(n: nat)
    ensures All(NotSpace, Itoa(n)) && ':' !in Itoa(n) && All(IsDigit, Itoa(n)) && Itoa(n)[0] != '-'
  {
    DigitsCanonical(n);
    assert forall c :: c in Itoa(n) ==> IsDigit(c);
    assert IsDigit(Itoa(n)[0]);
  }

  /* ssh */

  /** A local forward: [bind:]localPort:host:remotePort. */
  datatype Spec = Spec(bind: Option<string>, localPort: nat, host: string, remotePort: nat)

  predicate GoodSpec(s: Spec) {
    && (s.bind.Some? ==> IsField(s.bind.value))
    && IsField(s.host)
    && IsInt64(s.localPort) && IsInt64(s.remotePort) && s.remotePort > 0
  }

  function SpecParts(s: Spec): seq<string> {
    (if s.bind.Some? then [s.bind.value] else []) + [Itoa(s.localPort), s.host, Itoa(s.remotePort)]
  }

  function SpecText(s: Spec): string {
    Join(':', SpecParts(s))
  }

  /** The three shapes of a forward on the command line, and any token that is none of them. */
  datatype Arg =
    | Plain(token: string)
    | Separate(spec: Spec)               // -L spec
    | Attached(spec: Spec)               // -Lspec
    | Combined(flags: string, spec: Spec) // -fNL spec

  predicate GoodArg(a: Arg) {
    match a
    case Plain(t) => IsToken(t) && !(L_FLAG <= t) && !IsCombinedLFlag(t)
    case Separate(s) => GoodSpec(s)
    case Attached(s) => GoodSpec(s)
    case Combined(flags, s) => GoodSpec(s) && flags != "" && All(IsLetter, flags) && 'L' in flags && flags[0] != 'L'
  }

  function Tokens(a: Arg): seq<string> {
    match a
    case Plain(t) => [t]
    case Separate(s) => [L_FLAG, SpecText(s)]
    case Attached(s) => [L_FLAG + SpecText(s)]
    case Combined(flags, s) => ["-" + flags, SpecText(s)]
  }

  function AllTokens(args: seq<Arg>): seq<string> {
    if args == [] then [] else Tokens(args[0]) + AllTokens(args[1..])
  }

  function Print(args: seq<Arg>): AsciiText
    requires forall i :: 0 <= i < |args| ==> GoodArg(args[i])
  {
    AllTokensAreTokens(args);
    JoinAscii(' ', AllTokens(args));
    Join(' ', AllTokens(args))
  }

  /** The forward an argument list asks for on this local port. */
  function FirstForward(args: seq<Arg>, localPort: int): (string, int) {
    if args == [] then ("", 0)
    else if !args[0].Plain? && args[0].spec.localPort == localPort then (args[0].spec.host, args[0].spec.remotePort)
    else FirstForward(args[1..], localPort)
  }

  lemma SpecSplits(s: Spec)
    requires GoodSpec(s)
    ensures Split(':', SpecText(s)) == SpecParts(s)
  {
    ItoaPlain(s.localPort);
    ItoaPlain(s.remotePort);
    SplitJoin(':', SpecParts(s));
  }

  lemma SpecReads(s: Spec, localPort: int)
    requires GoodSpec(s)
    ensures SpecInfo(SpecText(s), localPort) == if s.localPort == localPort then (s.host, s.remotePort) else ("", 0)
  {
    SpecSplits(s);
    AtoiItoa(s.localPort);
    AtoiItoa(s.remotePort);
  }

  lemma SpecShape(s: Spec)
    requires GoodSpec(s)
    ensures IsToken(SpecText(s)) && ':' in SpecText(s)
    ensures s.bind.None? ==> SpecText(s)[0] != '-'
    ensures s.bind.Some? ==> SpecText(s) == s.bind.value + ":" + SpecText(s.(bind := None))
  {
    ItoaPlain(s.localPort);
    ItoaPlain(s.remotePort);
    var a, b := Itoa(s.localPort), Itoa(s.remotePort);
    assert Join(':', [b]) == b;
    assert [s.host, b][1..] == [b];
    assert Join(':', [s.host, b]) == s.host + ":" + b;
    assert [a, s.host, b][1..] == [s.host, b];
    assert Join(':', [a, s.host, b]) == a + ":" + (s.host + ":" + b);
    assert SpecParts(s.(bind := None)) == [a, s.host, b];
    var tail := SpecText(s.(bind := None));
    assert All(NotSpace, tail) && tail[|a|] == ':' && tail[0] == a[0];
    if s.bind.Some? {
      assert SpecParts(s) == [s.bind.value, a, s.host, b];
      assert SpecParts(s)[1..] == [a, s.host, b];
      assert SpecText(s)[|s.bind.value|] == ':';
    } else {
      assert SpecText(s) == tail;
    }
  }

  lemma ColonNotCombined(t: string)
    requires ':' in t
    ensures !IsCombinedLFlag(t)
  {
    var i :| 0 <= i < |t| && t[i] == ':';
    if i > 0 {
      assert t[1..][i - 1] == ':';
    }
  }

  /** A specification standing alone as a token is never mistaken for another port's forward. */
  lemma SpecTokenIgnored(s: Spec, rest: seq<string>, localPort: int)
    requires GoodSpec(s) && s.localPort != localPort
    ensures SshInfo([SpecText(s)] + rest, localPort) == SshInfo(rest, localPort)
  {
    SpecShape(s);
    var text, fields := SpecText(s), [SpecText(s)] + rest;
    assert fields[1..] == rest;
    assert text != L_FLAG;
    ColonNotCombined(text);
    if L_FLAG <= text {
      SpecAfterFlag(s);
      SpecReads(s.(bind := Some(s.bind.value[2..])), localPort);
    }
  }

  lemma SpecAfterFlag(s: Spec)
    requires GoodSpec(s) && L_FLAG <= SpecText(s)
    ensures s.bind.Some? && |s.bind.value| >= 2 && |SpecText(s)| > 2
    ensures var t := s.(bind := Some(s.bind.value[2..])); GoodSpec(t) && SpecText(s)[2..] == SpecText(t)
  {
    SpecShape(s);
    var bind, text := s.bind.value, SpecText(s);
    assert text[0] == '-' && text[1] == 'L';
    assert text[|bind|] == ':';
    var t := s.(bind := Some(bind[2..]));
    assert forall i :: 0 <= i < |bind[2..]| ==> bind[2..][i] == bind[i + 2];
    SpecShape(t);
    assert t.(bind := None) == s.(bind := None);
  }

  lemma ArgReads(a: Arg, rest: seq<string>, localPort: int)
    requires GoodArg(a)
    ensures SshInfo(Tokens(a) + rest, localPort) ==
            if !a.Plain? && a.spec.localPort == localPort then (a.spec.host, a.spec.remotePort)
                else SshInfo(rest, localPort)
  {
    var fields := Tokens(a) + rest;
    match a
    case Plain(t) =>
      assert fields[1..] == rest;
    case Separate(s) =>
      assert fields[1..] == [SpecText(s)] + rest;
      SpecReads(s, localPort);
      if s.localPort != localPort {
        SpecTokenIgnored(s, rest, localPort);
      }
    case Attached(s) =>
      SpecShape(s);
      assert fields[0] == L_FLAG + SpecText(s) && fields[0][2..] == SpecText(s) && fields[1..] == rest;
      SpecReads(s, localPort);
    case Combined(flags, s) =>
      assert fields[1..] == [SpecText(s)] + rest;
      assert fields[0][1..] == flags && fields[0][1] != 'L';
      SpecReads(s, localPort);
      if s.localPort != localPort {
        SpecTokenIgnored(s, rest, localPort);
      }
  }

  lemma {:induction false} ArgsRead(args: seq<Arg>, localPort: int)
    requires forall i :: 0 <= i < |args| ==> GoodArg(args[i])
    ensures SshInfo(AllTokens(args), localPort) == FirstForward(args, localPort)
  {
    if args != [] {
      ArgReads(args[0], AllTokens(args[1..]), localPort);
      ArgsRead(args[1..], localPort);
    }
  }

  lemma ArgTokens(a: Arg)
    requires GoodArg(a)
    ensures forall i :: 0 <= i < |Tokens(a)| ==> IsToken(Tokens(a)[i])
  {
    if !a.Plain? {
      SpecShape(a.spec);
    }
  }

  lemma {:induction false} AllTokensAreTokens(args: seq<Arg>)
    requires forall i :: 0 <= i < |args| ==> GoodArg(args[i])
    ensures forall i :: 0 <= i < |AllTokens(args)| ==> IsToken(AllTokens(args)[i])
  {
    if args != [] {
      ArgTokens(args[0]);
      AllTokensAreTokens(args[1..]);
    }
  }

  /** Parsing a printed ssh command line gives the first forward on the local port, or nothing. */
  lemma SshRoundTrip(args: seq<Arg>, localPort: int)
    requires forall i :: 0 <= i < |args| ==> GoodArg(args[i])
    ensures SshInfo(Fields(Print(args)), localPort) == FirstForward(args, localPort)
  {
    AllTokensAreTokens(args);
    FieldsJoin(AllTokens(args));
    ArgsRead(args, localPort);
  }

  /* Whatever the parser accepts the classifier accepts */

  lemma LetterL(f: string) returns (j: nat)
    requires L_FLAG <= f || IsCombinedLFlag(f)
    ensures 1 <= j < |f| && f[0] == '-' && f[j] == 'L' && All(IsLetter, f[1..j])
  {
    if L_FLAG <= f {
      j := 1;
    } else {
      var flags := f[1..];
      assert All(IsLetter, flags) && 'L' in flags;
      var k :| 0 <= k < |flags| && flags[k] == 'L';
      j := k + 1;
      var before := f[1..j];
      assert forall i :: 0 <= i < |before| ==> before[i] == flags[i];
    }
  }

  lemma FlagTokenMatches(cmdline: string, at: nat, f: string)
    requires at + |f| <= |cmdline| && cmdline[at..at + |f|] == f
    requires L_FLAG <= f || IsCombinedLFlag(f)
    ensures MatchesLFlag(cmdline)
  {
    var j := LetterL(f);
    assert cmdline[at] == f[0] && cmdline[at + j] == f[j];
    var between, inner := cmdline[at + 1..at + j], f[1..j];
    forall k | 0 <= k < j - 1
      ensures between[k] == inner[k]
    {
      assert between[k] == cmdline[at + 1 + k];
      assert inner[k] == f[1 + k];
      assert cmdline[at..at + |f|][1 + k] == cmdline[at + (1 + k)];
    }
    assert between == inner;
    assert FlagAt(cmdline, at, at + j);
  }

  lemma {:induction false} FlagToken(fields: seq<string>, localPort: int) returns (k: nat)
    requires SshInfo(fields, localPort).1 > 0
    ensures k < |fields| && (L_FLAG <= fields[k] || IsCombinedLFlag(fields[k]))
  {
    if SpecOf(fields).Some? {
      k := 0;
    } else {
      k := FlagToken(fields[1..], localPort);
      k := k + 1;
    }
  }

  /** For a command line that mentions ssh, a parsed forward implies the classifier's verdict. */
  lemma ParserWithinClassifier(cmdline: AsciiText, localPort: int)
    requires Contains(Lower(cmdline), "ssh") && SshInfo(Fields(cmdline), localPort).1 > 0
    ensures ClassifySSH(cmdline)
  {
    var k := FlagToken(Fields(cmdline), localPort);
    var at := RunIsInfix(NotSpace, cmdline, k);
    FlagTokenMatches(cmdline, at, Fields(cmdline)[k]);
  }

  lemma TokenContained(line: string, k: nat)
    requires k < |Fields(line)| && Lower(Fields(line)[k]) == Fields(line)[k]
    ensures Contains(Lower(line), Fields(line)[k])
  {
    var t := Fields(line)[k];
    var at := RunIsInfix(NotSpace, line, k);
    assert Lower(line)[at..at + |t|] == Lower(line[at..at + |t|]);
    assert OccursAt(t, Lower(line), at);
  }

  /** Every printed ssh command line with a forward is classified as an ssh forward. */
  lemma SshClassified(args: seq<Arg>, localPort: int)
    requires (forall i :: 0 <= i < |args| ==> GoodArg(args[i])) && FirstForward(args, localPort).1 > 0
    requires "ssh" in Fields(Print(args))
    ensures ClassifySSH(Print(args))
  {
    var line := Print(args);
    var k :| 0 <= k < |Fields(line)| && Fields(line)[k] == "ssh";
    assert Lower("ssh") == "ssh";
    TokenContained(line, k);
    SshRoundTrip(args, localPort);
    ParserWithinClassifier(line, localPort);
  }
}
