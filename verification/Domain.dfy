/** Domain names for forwards: `{identifier}-{service}`, with the local port as collision suffix. */
module Domain {
  import opened Text
  import opened NameOrder
  import opened Config
  import opened Forward

  const LABEL_MAX := 63

  predicate IsDash(c: char) {
    c == '-'
  }

  predicate IsLowerAlnum(c: char) {
    'a' <= c <= 'z' || IsDigit(c)
  }

  /* Sanitizing */

  /** The words of an identifier: its maximal alphanumeric runs, in lower case. */
  function Words(s: string): seq<string> {
    Runs(IsAlnum, Lower(s))
  }

  function Dashed(s: string): string {
    Join('-', Words(s))
  }

  function Cut(n: nat, s: string): (r: string)
    ensures r <= s && |r| == if |s| <= n then |s| else n
  {
    if |s| > n then s[..n] else s
  }

  /** The words joined by single dashes, cut to 63 bytes, without trailing dashes. */
  function Label(s: string): string {
    TrimRight(IsDash, Cut(LABEL_MAX, Dashed(s)))
  }

  /** The one-pass builder loop of the source computes Label. */
  method Sanitize(s: AsciiText) returns (r: string)
    ensures r == Label(s)
  {
    var t := Lower(s);
    var b, prev := "", '-';
    for i := 0 to |t|
      invariant b == Built(t[..i])
      invariant prev == '-' <==> !Open(IsAlnum, t[..i])
    {
      BuildStep(t[..i], t[i]);
      assert t[..i + 1] == t[..i] + [t[i]];
      if IsAlnum(t[i]) {
        b := b + [t[i]];
        prev := t[i];
      } else if prev != '-' {
        b := b + "-";
        prev := '-';
      }
    }
    assert t[..|t|] == t;
    TrimBuilt(t);
    r := Trim(IsDash, b);
    if |r| > LABEL_MAX {
      r := TrimRight(IsDash, r[..LABEL_MAX]);
    } else {
      CleanWords(s);
    }
  }

  /** The builder after consuming `done`: its words joined, and a dash once the last word has ended. */
  function Built(done: string): string {
    Join('-', Runs(IsAlnum, done)) + if Open(IsAlnum, done) || Runs(IsAlnum, done) == [] then "" else "-"
  }

  lemma BuildStep(done: string, c: char)
    ensures Built(done + [c]) == Built(done) + if IsAlnum(c) then [c] else if Open(IsAlnum, done) then "-" else ""
    ensures Open(IsAlnum, done + [c]) == IsAlnum(c)
  {
    RunsSnoc(IsAlnum, done, c);
    assert Open(IsAlnum, done + [c]) == IsAlnum(c);
    if IsAlnum(c) {
      JoinExtend(Runs(IsAlnum, done), c, Open(IsAlnum, done));
    }
  }

  lemma JoinExtend(words: seq<string>, c: char, open: bool)
    requires open ==> words != []
    ensures Join('-', Extend(words, c, open)) == Join('-', words) + (if open || words == [] then "" else "-") + [c]
  {
    if open {
      JoinGrow('-', words, c);
    } else {
      JoinSnoc('-', words, [c]);
    }
  }

  lemma TrimBuilt(t: string)
    ensures Trim(IsDash, Built(t)) == Join('-', Runs(IsAlnum, t))
  {
    if Runs(IsAlnum, t) != [] {
      RunsInClass(IsAlnum, t);
      JoinEnds(Runs(IsAlnum, t));
      var j := Join('-', Runs(IsAlnum, t));
      TrimUntouched(IsDash, j);
      TrimClosing(IsDash, j, '-');
    }
  }

  lemma {:induction false} JoinSnoc(sep: char, words: seq<string>, w: string)
    ensures Join(sep, words + [w]) == if words == [] then w else Join(sep, words) + [sep] + w
  {
    if words != [] {
      JoinAppend(sep, words, [w]);
    }
  }

  lemma {:induction false} JoinGrow(sep: char, words: seq<string>, c: char)
    requires words != []
    ensures Join(sep, Init(words) + [Last(words) + [c]]) == Join(sep, words) + [c]
  {
    assert words == Init(words) + [Last(words)];
    JoinSnoc(sep, Init(words), Last(words));
    JoinSnoc(sep, Init(words), Last(words) + [c]);
  }

  lemma {:induction false} JoinEnds(words: seq<string>)
    requires AllIn(IsAlnum, words) && words != []
    ensures var j := Join('-', words); j != "" && IsAlnum(j[0]) && IsAlnum(Last(j))
  {
    assert IsAlnum(words[0][0]);
    if |words| == 1 {
      assert IsAlnum(Last(words[0]));
    } else {
      JoinEnds(words[1..]);
      assert Last(Join('-', words)) == Last(Join('-', words[1..]));
    }
  }

  /* Case */

  /** The characters are equal, or one letter in either case. */
  predicate SameLetter(c: char, d: char) {
    c == d || exists i :: 0 <= i < 26 && {c, d} == {UPPER_LETTERS[i], LOWER_LETTERS[i]}
  }

  predicate SameLetters(s: string, t: string) {
    |s| == |t| && forall i :: 0 <= i < |s| ==> SameLetter(s[i], t[i])
  }

  lemma SameLetterLowered(c: char, d: char)
    requires SameLetter(c, d)
    ensures LowerChar(c) == LowerChar(d)
  {
    if i :| 0 <= i < 26 && {c, d} == {UPPER_LETTERS[i], LOWER_LETTERS[i]} {
      UpperLettersInOrder(i);
      LowerLettersInOrder(i);
      CaseFolding(c);
      assert c in {UPPER_LETTERS[i], LOWER_LETTERS[i]} && d in {UPPER_LETTERS[i], LOWER_LETTERS[i]};
    }
  }

  /** Labels do not depend on the case of letters. */
  lemma LabelIgnoresCase(s: string, t: string)
    requires SameLetters(s, t)
    ensures Label(s) == Label(t)
  {
    SameLettersLowered(s, t);
  }

  lemma SameLettersLowered(s: string, t: string)
    requires SameLetters(s, t)
    ensures Lower(s) == Lower(t)
  {
    forall i | 0 <= i < |s|
      ensures Lower(s)[i] == Lower(t)[i]
    {
      SameLetterLowered(s[i], t[i]);
    }
  }

  predicate IsCapital(c: char) {
    c in UPPER_LETTERS
  }

  lemma SmallKept(c: char)
    requires !IsCapital(c)
    ensures LowerChar(c) == c
  {
    CaseFolding(c);
  }

  /** A text without capitals keeps its letters. */
  lemma NoCapitalsKept(t: string)
    requires forall i :: 0 <= i < |t| ==> !IsCapital(t[i])
    ensures Words(t) == Runs(IsAlnum, t)
  {
    var u := Lower(t);
    forall i | 0 <= i < |t|
      ensures u[i] == t[i]
    {
      SmallKept(t[i]);
    }
    assert u == t;
  }

  /* Shape of a label */

  /** Lower-case letters and digits with single dashes between them. */
  predicate Clean(t: string) {
    && (forall i :: 0 <= i < |t| ==> IsLowerAlnum(t[i]) || t[i] == '-')
    && (forall i :: 0 <= i < |t| - 1 ==> t[i] == '-' ==> t[i + 1] != '-')
    && (t != "" ==> t[0] != '-' && Last(t) != '-')
  }

  /** A host name label (section 2.3.4 of RFC 1035, section 2.1 of RFC 1123) without doubled hyphens. */
  predicate IsDnsLabel(t: string) {
    Clean(t) && 1 <= |t| <= LABEL_MAX
  }

  lemma {:induction false} RunsLower(t: string)
    requires forall i :: 0 <= i < |t| ==> !('A' <= t[i] <= 'Z')
    ensures AllIn(IsLowerAlnum, Runs(IsAlnum, t))
  {
    if t != "" {
      RunsLower(Init(t));
    }
  }

  lemma {:induction false} JoinClean(words: seq<string>)
    requires AllIn(IsLowerAlnum, words)
    ensures Clean(Join('-', words))
    ensures words != [] ==> Join('-', words) != ""
  {
    if |words| == 1 {
      assert forall i :: 0 <= i < |words[0]| ==> IsLowerAlnum(words[0][i]);
    } else if words != [] {
      JoinClean(words[1..]);
      CleanCons(words[0], Join('-', words[1..]));
    }
  }

  lemma CleanCons(word: string, rest: string)
    requires word != "" && All(IsLowerAlnum, word) && Clean(rest) && rest != ""
    ensures Clean(word + ['-'] + rest)
  {
    var t, n := word + ['-'] + rest, |word|;
    assert forall i :: 0 <= i < n ==> t[i] == word[i] && IsLowerAlnum(t[i]);
    assert forall i :: n < i < |t| ==> t[i] == rest[i - n - 1];
    assert t[n + 1] == rest[0] && Last(t) == Last(rest);
    forall i | 0 <= i < |t| - 1 && t[i] == '-'
      ensures t[i + 1] != '-'
    {
      if i > n {
        assert rest[i - n - 1] == '-' && t[i + 1] == rest[i - n];
      }
    }
  }

  lemma CleanWords(s: string)
    ensures Clean(Dashed(s)) && AllIn(IsLowerAlnum, Words(s))
    ensures Words(s) != [] ==> Dashed(s) != ""
  {
    RunsLower(Lower(s));
    JoinClean(Words(s));
  }

  lemma LowerClean(t: string)
    requires forall i :: 0 <= i < |t| ==> IsLowerAlnum(t[i]) || t[i] == '-'
    ensures Lower(t) == t
  {
  }

  /** Rejoining the words of a text that is already dashed gives it back. */
  lemma {:induction false} RebuildDashed(t: string)
    requires forall i :: 0 <= i < |t| ==> IsLowerAlnum(t[i]) || t[i] == '-'
    requires forall i :: 0 <= i < |t| - 1 ==> t[i] == '-' ==> t[i + 1] != '-'
    requires t != "" ==> t[0] != '-'
    ensures Built(t) == t
  {
    if t != "" {
      assert t == Init(t) + [Last(t)];
      RebuildDashed(Init(t));
      BuildStep(Init(t), Last(t));
      if Last(t) == '-' {
        assert t[|t| - 2] != '-';
        assert Open(IsAlnum, Init(t));
      }
    }
  }

  lemma CleanFixed(t: string)
    requires Clean(t)
    ensures Words(t) == Runs(IsAlnum, t) && Dashed(t) == t
  {
    LowerClean(t);
    RebuildDashed(t);
  }

  lemma LabelClean(s: string)
    ensures Clean(Label(s)) && |Label(s)| <= LABEL_MAX
    ensures Label(s) == "" <==> Words(s) == []
  {
    CleanWords(s);
    var t, u := Label(s), Dashed(s);
    TrimRightEnd(IsDash, Cut(LABEL_MAX, u));
    assert t <= u;
    assert forall i :: 0 <= i < |t| ==> t[i] == u[i];
    var cut := Cut(LABEL_MAX, u);
    assert cut != "" ==> cut[0] == u[0];
  }

  /** Sanitizing twice changes nothing. */
  lemma SanitizeIdempotent(s: string)
    ensures Label(Label(s)) == Label(s)
  {
    LabelClean(s);
    CleanFixed(Label(s));
  }

  /** A label short enough to escape truncation is its words joined by dashes. */
  lemma ShortLabel(s: string)
    ensures |Dashed(s)| <= LABEL_MAX <==> Label(s) == Dashed(s)
  {
    CleanWords(s);
    TrimRightEnd(IsDash, Cut(LABEL_MAX, Dashed(s)));
  }

  /** The words of an untruncated label are the words of its source text. */
  lemma ShortLabelWords(s: string)
    requires |Dashed(s)| <= LABEL_MAX
    ensures Runs(IsAlnum, Label(s)) == Words(s)
  {
    ShortLabel(s);
    RunsInClass(IsAlnum, Lower(s));
    RunsJoin(IsAlnum, '-', Words(s));
  }

  /* Generating */

  function BaseIdentifier(pf: PortForward, cfg: Config): AsciiText {
    ItoaAscii(pf.port);
    if pf.port in cfg.overrides then cfg.overrides[pf.port]
    else if pf.remoteHost != "" then pf.remoteHost
    else if pf.resource != "" then pf.resource
    else "port-" + Itoa(pf.port)
  }

  function ServiceLabel(remotePort: int): string {
    var svc := ServiceName(remotePort);
    if svc != "" then svc else "port" + Itoa(remotePort)
  }

  function PlainText(base: AsciiText, remotePort: int): string {
    base + "-" + ServiceLabel(remotePort)
  }

  function SuffixedText(base: AsciiText, remotePort: int, port: int): string {
    base + "-" + ServiceLabel(remotePort) + "-" + Itoa(port)
  }

  /** The label for a forward when the labels in `taken` are in use; the fallback is not re-checked. */
  function Choose(base: AsciiText, remotePort: int, port: int, taken: set<string>): string {
    var name := Label(PlainText(base, remotePort));
    if name in taken then Label(SuffixedText(base, remotePort, port)) else name
  }

  function GenerateLabel(pf: PortForward, cfg: Config, taken: set<string>): string {
    Choose(BaseIdentifier(pf, cfg), pf.remotePort, pf.port, taken)
  }

  function PlainLabel(pf: PortForward, cfg: Config): string {
    Label(PlainText(BaseIdentifier(pf, cfg), pf.remotePort))
  }

  function FallbackLabel(pf: PortForward, cfg: Config): string {
    Label(SuffixedText(BaseIdentifier(pf, cfg), pf.remotePort, pf.port))
  }

  function Generate(pf: PortForward, cfg: Config, taken: set<string>): AsciiText {
    GeneratedLabelValid(BaseIdentifier(pf, cfg), pf.remotePort, pf.port, taken);
    DomainAscii(GenerateLabel(pf, cfg, taken), cfg.tld);
    GenerateLabel(pf, cfg, taken) + "." + cfg.tld
  }

  lemma DomainAscii(name: string, tld: AsciiText)
    requires IsDnsLabel(name)
    ensures Ascii(name + "." + tld)
  {
    var full := name + "." + tld;
    forall i | 0 <= i < |full|
      ensures IsAscii(full[i])
    {
      if i < |name| {
        assert full[i] == name[i];
      } else if i > |name| {
        assert full[i] == tld[i - |name| - 1];
      }
    }
  }

  lemma WordsAppend(a: string, b: string)
    ensures Words(a + "-" + b) == Words(a) + Words(b)
  {
    LowerAppend(a + "-", b);
    LowerAppend(a, "-");
    RunsAppend(IsAlnum, Lower(a), '-', Lower(b));
    assert Lower("-") == ['-'];
  }

  lemma WordsWord(w: string)
    requires w != "" && All(IsLowerAlnum, w)
    ensures Words(w) == [w]
  {
    LowerClean(w);
    RunsWord(IsAlnum, w);
  }

  lemma HasWord(s: string, i: nat)
    requires i < |s| && IsAlnum(s[i])
    ensures Words(s) != []
  {
    HasRun(Lower(s), i);
  }

  lemma {:induction false} HasRun(t: string, i: nat)
    requires i < |t| && IsAlnum(t[i])
    ensures Runs(IsAlnum, t) != []
  {
    if i < |t| - 1 {
      HasRun(Init(t), i);
    }
  }

  lemma ServiceNameShape(remotePort: int)
    ensures var svc := ServiceName(remotePort); svc != "" ==> All(IsLowerAlnum, svc) && IsLetter(svc[0])
  {
    var svc := ServiceName(remotePort);
    assert svc == "" || svc == "http" || svc == "https" || svc == "pgsql" || svc == "mysql" || svc == "redis"
        || svc == "mongo" || svc == "k8s";
  }

  /** One lower-case word starting with a letter. */
  lemma ServiceLabelShape(remotePort: int)
    ensures var svc := ServiceLabel(remotePort); svc != "" && IsLetter(svc[0])
    ensures remotePort >= 0 ==> All(IsLowerAlnum, ServiceLabel(remotePort))
  {
    ServiceNameShape(remotePort);
    if ServiceName(remotePort) == "" {
      var d := Itoa(remotePort);
      var svc := "port" + d;
      assert svc[0] == 'p';
      if remotePort >= 0 {
        DigitsCanonical(remotePort);
        assert forall i :: 4 <= i < |svc| ==> svc[i] == d[i - 4];
      }
    }
  }

  lemma PlainWords(base: AsciiText, remotePort: int)
    requires remotePort >= 0
    ensures Words(PlainText(base, remotePort)) == Words(base) + [ServiceLabel(remotePort)]
  {
    ServiceLabelShape(remotePort);
    WordsAppend(base, ServiceLabel(remotePort));
    WordsWord(ServiceLabel(remotePort));
  }

  lemma SuffixedWords(base: AsciiText, remotePort: int, port: int)
    requires remotePort >= 0 && port >= 0
    ensures Words(SuffixedText(base, remotePort, port)) == Words(PlainText(base, remotePort)) + [Itoa(port)]
  {
    var d := Itoa(port);
    DigitsCanonical(port);
    assert All(IsLowerAlnum, d);
    WordsAppend(PlainText(base, remotePort), d);
    WordsWord(d);
  }

  lemma SuffixedDashed(base: AsciiText, remotePort: int, port: int)
    requires remotePort >= 0 && port >= 0
    ensures Dashed(SuffixedText(base, remotePort, port)) == Dashed(PlainText(base, remotePort)) + "-" + Itoa(port)
    ensures var plain := Dashed(PlainText(base, remotePort)); plain != "" && IsAlnum(Last(plain))
  {
    PlainWords(base, remotePort);
    SuffixedWords(base, remotePort, port);
    JoinSnoc('-', Words(PlainText(base, remotePort)), Itoa(port));
    RunsInClass(IsAlnum, Lower(PlainText(base, remotePort)));
    JoinEnds(Words(PlainText(base, remotePort)));
  }

  /** An unknown service is spelled `port` and its decimal number. */
  lemma ServiceLabelReads(remotePort: int)
    requires IsInt64(remotePort)
    ensures var svc := ServiceLabel(remotePort);
      if ServiceName(remotePort) != "" then svc == ServiceName(remotePort)
      else |svc| > 4 && svc[..4] == ['p', 'o', 'r', 't'] && Atoi(svc[4..]) == remotePort
  {
    AtoiItoa(remotePort);
    ItoaChars(remotePort);
    if ServiceName(remotePort) == "" {
      assert ServiceLabel(remotePort)[4..] == Itoa(remotePort);
    }
  }

  /** Every generated label is a well-formed DNS label, truncated or not, for every remote port. */
  lemma GeneratedLabelValid(base: AsciiText, remotePort: int, port: int, taken: set<string>)
    ensures IsDnsLabel(Choose(base, remotePort, port, taken))
  {
    ServiceLabelShape(remotePort);
    var plain, suffixed := PlainText(base, remotePort), SuffixedText(base, remotePort, port);
    var at := |base| + 1;
    assert plain[at] == suffixed[at] == ServiceLabel(remotePort)[0];
    HasWord(plain, at);
    HasWord(suffixed, at);
    LabelClean(plain);
    LabelClean(suffixed);
  }

  /** A name neither truncated nor taken spells out, word by word, what identifies the forward: the override if there is
      one, else the remote host, else the resource, else the local port; and then the service. */
  lemma GeneratedWords(pf: PortForward, cfg: Config, taken: set<string>)
    requires pf.remotePort >= 0 && pf.port >= 0
    requires var plain := PlainText(BaseIdentifier(pf, cfg), pf.remotePort);
      |Dashed(plain)| <= LABEL_MAX && Label(plain) !in taken
    ensures var words := Runs(IsAlnum, GenerateLabel(pf, cfg, taken));
      && words != [] && Last(words) == ServiceLabel(pf.remotePort)
      && (pf.port in cfg.overrides ==> Init(words) == Words(cfg.overrides[pf.port]))
      && (pf.port !in cfg.overrides ==>
            if pf.remoteHost != "" then Init(words) == Words(pf.remoteHost)
            else if pf.resource != "" then Init(words) == Words(pf.resource)
            else Init(words) == ["port", Itoa(pf.port)])
  {
    var base := BaseIdentifier(pf, cfg);
    ShortLabelWords(PlainText(base, pf.remotePort));
    PlainWords(base, pf.remotePort);
    PortWords(pf.port);
  }

  lemma TwoWords(a: string, b: string)
    requires a != "" && b != "" && All(IsLowerAlnum, a) && All(IsLowerAlnum, b)
    ensures Words(a + "-" + b) == [a, b]
  {
    WordsWord(a);
    WordsWord(b);
    WordsAppend(a, b);
  }

  lemma PortWords(port: nat)
    ensures Words("port-" + Itoa(port)) == ["port", Itoa(port)]
  {
    var word, d := "port", Itoa(port);
    DigitsCanonical(port);
    TwoWords(word, d);
    assert word + "-" + d == "port-" + d;
  }

  /* Collisions */

  /** An untruncated label of the forward on `port`: its last word is a service label or that port. */
  ghost predicate Owns(port: int, name: string) {
    var words := Runs(IsAlnum, name);
    words != [] && (StartsWithLetter(Last(words)) || Last(words) == Itoa(port))
  }

  predicate StartsWithLetter(w: string) {
    w != "" && IsLetter(w[0])
  }

  /** The name chosen for this forward was not truncated. */
  predicate FitsNow(base: AsciiText, remotePort: int, port: int, taken: set<string>) {
    if Label(PlainText(base, remotePort)) in taken
    then |Dashed(SuffixedText(base, remotePort, port))| <= LABEL_MAX
    else |Dashed(PlainText(base, remotePort))| <= LABEL_MAX
  }

  /** A bound on the identifier alone under which no name of this forward is ever truncated. */
  predicate Fits(base: AsciiText, remotePort: int, port: int) {
    |Dashed(PlainText(base, remotePort))| + 1 + |Itoa(port)| <= LABEL_MAX
  }

  lemma FitsAlways(base: AsciiText, remotePort: int, port: int, taken: set<string>)
    requires remotePort >= 0 && port >= 0 && Fits(base, remotePort, port)
    ensures FitsNow(base, remotePort, port, taken)
  {
    SuffixedDashed(base, remotePort, port);
  }

  ghost predicate OwnedByOther(port: int, name: string) {
    exists q :: q >= 0 && q != port && Owns(q, name)
  }

  /** A label has at most 61 bytes exactly if its words joined by dashes have. */
  lemma LabelLength(s: string)
    ensures |Label(s)| <= LABEL_MAX - 2 <==> |Dashed(s)| <= LABEL_MAX - 2
  {
    CleanWords(s);
    ShortLabel(s);
    if |Dashed(s)| > LABEL_MAX {
      var cut := Dashed(s)[..LABEL_MAX];
      assert Cut(LABEL_MAX, Dashed(s)) == cut;
      if Last(cut) == '-' {
        assert Init(cut)[LABEL_MAX - 2] == Dashed(s)[LABEL_MAX - 2] != '-';
        assert TrimRight(IsDash, Init(cut)) == Init(cut);
      }
    }
  }

  /** Although the suffixed fallback is never checked against the names in use, it cannot clash. */
  lemma ChosenIsFresh(base: AsciiText, remotePort: int, port: int, taken: set<string>)
    requires remotePort >= 0 && port >= 0
    requires forall name :: name in taken ==> OwnedByOther(port, name)
    requires FitsNow(base, remotePort, port, taken)
    ensures Choose(base, remotePort, port, taken) !in taken
    ensures Owns(port, Choose(base, remotePort, port, taken))
  {
    if Label(PlainText(base, remotePort)) in taken {
      SuffixedWords(base, remotePort, port);
      ShortLabelWords(SuffixedText(base, remotePort, port));
      var name := Label(SuffixedText(base, remotePort, port));
      if name in taken {
        var q :| q >= 0 && q != port && Owns(q, name);
        DigitsCanonical(port);
        assert IsDigit(Itoa(port)[0]);
        ItoaInjective(port, q);
      }
    } else {
      PlainWords(base, remotePort);
      ServiceLabelShape(remotePort);
      ShortLabelWords(PlainText(base, remotePort));
    }
  }

  /** The digits of the port that survive truncation behind a plain name of n bytes. */
  function KeptDigits(n: nat, port: int): string {
    if n + 1 >= LABEL_MAX then "" else Cut(LABEL_MAX - n - 1, Itoa(port))
  }

  lemma CutSuffix(plain: string, digits: string)
    requires plain != "" && !IsDash(Last(plain)) && digits != "" && All(IsDigit, digits)
    ensures TrimRight(IsDash, Cut(LABEL_MAX, plain + "-" + digits)) ==
            if |plain| <= LABEL_MAX - 2 then plain + "-" + Cut(LABEL_MAX - |plain| - 1, digits)
            else TrimRight(IsDash, Cut(LABEL_MAX, plain))
  {
    var full := plain + "-" + digits;
    if |plain| >= LABEL_MAX {
      assert full[..LABEL_MAX] == plain[..LABEL_MAX];
      assert Cut(LABEL_MAX, full) == Cut(LABEL_MAX, plain);
    } else if |plain| == LABEL_MAX - 1 {
      assert Cut(LABEL_MAX, full) == plain + "-";
      assert Init(plain + "-") == plain;
    } else {
      var kept := Cut(LABEL_MAX - |plain| - 1, digits);
      assert Cut(LABEL_MAX, full) == plain + "-" + kept;
      assert IsDigit(Last(kept)) && Last(plain + "-" + kept) == Last(kept);
    }
  }

  lemma SuffixedLabel(base: AsciiText, remotePort: int, port: int)
    requires remotePort >= 0 && port >= 0
    ensures var plain := Dashed(PlainText(base, remotePort));
      Label(SuffixedText(base, remotePort, port)) ==
      if |plain| <= LABEL_MAX - 2 then plain + "-" + KeptDigits(|plain|, port) else Label(PlainText(base, remotePort))
  {
    SuffixedDashed(base, remotePort, port);
    DigitsCanonical(port);
    CutSuffix(Dashed(PlainText(base, remotePort)), Itoa(port));
  }

  /** Exactly when the fallback differs from the name it replaces. */
  lemma FallbackDiffersIff(base: AsciiText, remotePort: int, port: int)
    requires remotePort >= 0 && port >= 0
    ensures Label(SuffixedText(base, remotePort, port)) != Label(PlainText(base, remotePort))
            <==> |Dashed(PlainText(base, remotePort))| <= LABEL_MAX - 2
  {
    SuffixedLabel(base, remotePort, port);
    ShortLabel(PlainText(base, remotePort));
  }

  /** With room for a suffix, two fallbacks for one target are equal exactly if the digits that fit are. */
  lemma SuffixedEqualIff(base: AsciiText, remotePort: int, p: int, q: int)
    requires remotePort >= 0 && p >= 0 && q >= 0 && |Dashed(PlainText(base, remotePort))| <= LABEL_MAX - 2
    ensures var n := |Dashed(PlainText(base, remotePort))|;
      Label(SuffixedText(base, remotePort, p)) == Label(SuffixedText(base, remotePort, q)) <==>
          KeptDigits(n, p) == KeptDigits(n, q)
  {
    SuffixedLabel(base, remotePort, p);
    SuffixedLabel(base, remotePort, q);
    SameTail(Dashed(PlainText(base, remotePort)) + "-", KeptDigits(|Dashed(PlainText(base, remotePort))|, p),
             KeptDigits(|Dashed(PlainText(base, remotePort))|, q));
  }

  lemma SameTail(front: string, a: string, b: string)
    ensures front + a == front + b <==> a == b
  {
    assert (front + a)[|front|..] == a && (front + b)[|front|..] == b;
  }

  /** The two names a forward can have. */
  datatype Naming = Naming(plain: PortForward -> string, fallback: PortForward -> string)

  function NamingOf(cfg: Config): Naming {
    Naming(f => PlainLabel(f, cfg), f => FallbackLabel(f, cfg))
  }

  /** The generator gives a forward its plain name, or its fallback if the plain name is taken. */
  ghost predicate Names(n: Naming, cfg: Config) {
    forall f, taken :: GenerateLabel(f, cfg, taken) == if n.plain(f) in taken then n.fallback(f) else n.plain(f)
  }

  lemma NamingNames(cfg: Config)
    ensures Names(NamingOf(cfg), cfg)
  {
  }

  /** Labels handed out to these forwards when they are added in this order. */
  ghost function NamesInOrder(n: Naming, forwards: seq<PortForward>): (names: seq<string>)
    ensures |names| == |forwards|
  {
    if forwards == [] then []
    else
      var before, f := NamesInOrder(n, Init(forwards)), Last(forwards);
      before + [NextName(n, before, f)]
  }

  /** The label of the next forward when these labels are in use. */
  function NextName(n: Naming, taken: seq<string>, f: PortForward): string {
    if n.plain(f) in taken then n.fallback(f) else n.plain(f)
  }

  /** Names handed out, in this order, to forwards from these local ports to one target. */
  ghost function AssignedNames(base: AsciiText, remotePort: int, ports: seq<int>): (names: seq<string>)
    ensures |names| == |ports|
  {
    if ports == [] then []
    else
      var before := AssignedNames(base, remotePort, Init(ports));
      before + [Choose(base, remotePort, Last(ports), set name | name in before)]
  }

  /** For forwards to one target these are the labels of NamesInOrder. */
  lemma {:induction false} OneTargetNames(cfg: Config, forwards: seq<PortForward>, base: AsciiText, remotePort: int)
    requires forall i :: 0 <= i < |forwards| ==>
             BaseIdentifier(forwards[i], cfg) == base && forwards[i].remotePort == remotePort
    ensures NamesInOrder(NamingOf(cfg), forwards) == AssignedNames(base, remotePort, LocalPorts(forwards))
  {
    if forwards != [] {
      OneTargetNames(cfg, Init(forwards), base, remotePort);
      assert Init(LocalPorts(forwards)) == LocalPorts(Init(forwards));
    }
  }

  function LocalPorts(forwards: seq<PortForward>): (ports: seq<int>)
    ensures |ports| == |forwards|
  {
    seq(|forwards|, i requires 0 <= i < |forwards| => forwards[i].port)
  }

  lemma {:induction false} AssignedNamesAre(base: AsciiText, remotePort: int, ports: seq<int>, i: nat)
    requires i < |ports|
    ensures AssignedNames(base, remotePort, ports)[i] ==
            if i == 0 then Label(PlainText(base, remotePort)) else Label(SuffixedText(base, remotePort, ports[i]))
  {
    var before := AssignedNames(base, remotePort, Init(ports));
    if i < |ports| - 1 {
      AssignedNamesAre(base, remotePort, Init(ports), i);
    } else if i > 0 {
      AssignedNamesAre(base, remotePort, Init(ports), 0);
      assert before[0] in before;
    }
  }

  /** The first forward has the plain name, the others their fallbacks. */
  predicate FirstPlain(base: AsciiText, remotePort: int, ports: seq<int>, names: seq<string>) {
    |names| == |ports| && forall i :: 0 <= i < |names| ==>
      names[i] == if i == 0 then Label(PlainText(base, remotePort)) else Label(SuffixedText(base, remotePort, ports[i]))
  }

  lemma FirstPlainDistinctIff(base: AsciiText, remotePort: int, ports: seq<int>, names: seq<string>)
    requires remotePort >= 0 && |ports| >= 2 && FirstPlain(base, remotePort, ports, names)
    requires forall i :: 0 <= i < |ports| ==> ports[i] >= 0
    ensures NoDuplicates(names) <==> RoomForSuffixes(|Dashed(PlainText(base, remotePort))|, ports)
  {
    var n := |Dashed(PlainText(base, remotePort))|;
    var kept := AllKeptDigits(n, ports);
    forall i | 1 <= i < |names|
      ensures names[i] != names[0] <==> n <= LABEL_MAX - 2
    {
      FallbackDiffersIff(base, remotePort, ports[i]);
    }
    forall i, j | 1 <= i < j < |names| && n <= LABEL_MAX - 2
      ensures names[i] != names[j] <==> kept[i] != kept[j]
    {
      SuffixedEqualIff(base, remotePort, ports[i], ports[j]);
    }
    DistinctIff(names, kept, n <= LABEL_MAX - 2);
  }

  function AllKeptDigits(n: nat, ports: seq<int>): (r: seq<string>)
    ensures |r| == |ports|
  {
    seq(|ports|, i requires 0 <= i < |ports| => KeptDigits(n, ports[i]))
  }

  /** A plain name of n bytes leaves room for a suffix, and the digits that fit tell the ports from the second on
      apart. */
  ghost predicate RoomForSuffixes(n: nat, ports: seq<int>)
    requires ports != []
  {
    n <= LABEL_MAX - 2 && NoDuplicates(AllKeptDigits(n, ports)[1..])
  }

  /** Exactly when several forwards to one target get different names. */
  lemma SameTargetDistinctIff(base: AsciiText, remotePort: int, ports: seq<int>)
    requires remotePort >= 0 && |ports| >= 2
    requires forall i :: 0 <= i < |ports| ==> ports[i] >= 0
    ensures NoDuplicates(AssignedNames(base, remotePort, ports)) <==>
            RoomForSuffixes(|Dashed(PlainText(base, remotePort))|, ports)
  {
    AssignedFirstPlain(base, remotePort, ports);
    FirstPlainDistinctIff(base, remotePort, ports, AssignedNames(base, remotePort, ports));
  }

  lemma AssignedFirstPlain(base: AsciiText, remotePort: int, ports: seq<int>)
    ensures FirstPlain(base, remotePort, ports, AssignedNames(base, remotePort, ports))
  {
    forall i | 0 <= i < |ports|
      ensures AssignedNames(base, remotePort, ports)[i] ==
              if i == 0 then Label(PlainText(base, remotePort)) else Label(SuffixedText(base, remotePort, ports[i]))
    {
      AssignedNamesAre(base, remotePort, ports, i);
    }
  }

  lemma DistinctIff(names: seq<string>, kept: seq<string>, room: bool)
    requires |names| == |kept| >= 2
    requires forall i :: 1 <= i < |names| ==> (names[i] != names[0] <==> room)
    requires forall i, j :: 1 <= i < j < |names| && room ==> (names[i] != names[j] <==> kept[i] != kept[j])
    ensures NoDuplicates(names) <==> room && NoDuplicates(kept[1..])
  {
    var rest := kept[1..];
    assert forall i :: 1 <= i < |kept| ==> kept[i] == rest[i - 1];
    if !room {
      assert names[0] == names[1];
    } else if NoDuplicates(names) {
      forall i, j | 0 <= i < j < |rest|
        ensures rest[i] != rest[j]
      {
        assert names[i + 1] != names[j + 1];
      }
    }
  }

  lemma LongHost(base: AsciiText)
    requires |base| == 57 && All(IsLowerAlnum, base)
    ensures |Dashed(PlainText(base, 80))| == LABEL_MAX - 1
  {
    assert All(IsAlnum, base);
    LowerClean(base);
    RunsWord(IsAlnum, base);
    PlainWords(base, 80);
    JoinSnoc('-', [base], "http");
    assert Words(base) == [base];
  }

  /** Truncation can defeat the suffix: with a 57-letter identifier and remote port 80, ports 8080 and 8443 share one
      name, although the collision branch was taken. */
  lemma TruncationClash(base: AsciiText)
    requires |base| == 57 && All(IsLowerAlnum, base)
    ensures var names := AssignedNames(base, 80, [8080, 8443]);
      names[0] == names[1] && IsDnsLabel(names[0])
  {
    LongHost(base);
    AssignedNamesAre(base, 80, [8080, 8443], 0);
    AssignedNamesAre(base, 80, [8080, 8443], 1);
    FallbackDiffersIff(base, 80, 8443);
    GeneratedLabelValid(base, 80, 8080, {});
  }
}
