/** Adding directive lines to /etc/dnsmasq.conf at setup and removing them at teardown. */
module ConfFile {
  import opened Text

  /* Lines */

  function Lines(text: string): (r: seq<string>)
    ensures r != []
  {
    Split('\n', text)
  }

  predicate OneLine(s: string) {
    '\n' !in s
  }

  predicate OneLines(lines: seq<string>) {
    forall i :: 0 <= i < |lines| ==> OneLine(lines[i])
  }

  /** Lines and directives are compared without surrounding white space. */
  predicate Same(d: string, l: string) {
    TrimSpace(d) == TrimSpace(l)
  }

  predicate AmongThem(l: string, directives: seq<string>) {
    exists i :: 0 <= i < |directives| && Same(directives[i], l)
  }

  predicate Mentions(text: string, d: string) {
    AmongThem(d, Lines(text))
  }

  predicate Blank(s: string) {
    TrimSpace(s) == ""
  }

  function Appended(text: string, d: string): string {
    text + "\n" + d + "\n"
  }

  function Ensured(text: string, d: string): string {
    if Mentions(text, d) then text else Appended(text, d)
  }

  /** The lines that pass, in order. */
  function Sieve(drop: string -> bool, lines: seq<string>): seq<string> {
    if lines == [] then []
    else Sieve(drop, Init(lines)) + if drop(Last(lines)) then [] else [Last(lines)]
  }

  function Matching(directives: seq<string>): string -> bool {
    l => AmongThem(l, directives)
  }

  /** The lines that match none of the directives. */
  function Keep(directives: seq<string>, lines: seq<string>): seq<string> {
    Sieve(Matching(directives), lines)
  }

  function Without(text: string, d: string): string {
    Join('\n', Keep([d], Lines(text)))
  }

  function AllEnsured(text: string, directives: seq<string>): string
    decreases |directives|
  {
    if directives == [] then text else AllEnsured(Ensured(text, directives[0]), directives[1..])
  }

  function AllRemoved(text: string, directives: seq<string>): string
    decreases |directives|
  {
    if directives == [] then text else AllRemoved(Without(text, directives[0]), directives[1..])
  }

  function Newlines(k: nat): string {
    seq(k, _ => '\n')
  }

  lemma IndentedSame(d: string, a: string, b: string)
    requires All(IsSpace, a) && All(IsSpace, b)
    ensures Same(d, a + d + b)
  {
    TrimIgnores(IsSpace, a, d, b);
  }

  /** A directive that is there with white space around it is not added again, and is removed. */
  lemma IndentedDirective(text: string, d: string, a: string, b: string)
    requires All(IsSpace, a) && All(IsSpace, b) && a + d + b in Lines(text)
    ensures Ensured(text, d) == text
    ensures a + d + b !in Keep([d], Lines(text))
  {
    var i :| 0 <= i < |Lines(text)| && Lines(text)[i] == a + d + b;
    IndentedSame(d, a, b);
    AmongOne(Lines(text)[i], d);
    KeepExact([d], Lines(text));
  }

  /* What removal keeps */

  lemma {:induction false} SieveAppend(drop: string -> bool, a: seq<string>, b: seq<string>)
    ensures Sieve(drop, a + b) == Sieve(drop, a) + Sieve(drop, b)
  {
    if b == [] {
      assert a + b == a;
    } else {
      SieveAppend(drop, a, Init(b));
      assert Init(a + b) == a + Init(b);
    }
  }

  lemma {:induction false} SieveExact(drop: string -> bool, lines: seq<string>)
    ensures forall l :: l in Sieve(drop, lines) <==> l in lines && !drop(l)
  {
    if lines != [] {
      SieveExact(drop, Init(lines));
      assert lines == Init(lines) + [Last(lines)];
    }
  }

  lemma {:induction false} SieveCount(drop: string -> bool, lines: seq<string>)
    ensures |Sieve(drop, lines)| <= |lines|
    ensures |Sieve(drop, lines)| == |lines| ==> forall i :: 0 <= i < |lines| ==> !drop(lines[i])
  {
    if lines != [] {
      SieveCount(drop, Init(lines));
    }
  }

  lemma {:induction false} SieveAll(drop: string -> bool, lines: seq<string>)
    requires forall i :: 0 <= i < |lines| ==> !drop(lines[i])
    ensures Sieve(drop, lines) == lines
  {
    if lines != [] {
      var front, l := Init(lines), Last(lines);
      assert l == lines[|lines| - 1] && !drop(l);
      assert forall i :: 0 <= i < |front| ==> front[i] == lines[i];
      SieveAll(drop, front);
      assert lines == front + [l];
    }
  }

  lemma SieveLast(drop: string -> bool, lines: seq<string>, l: string)
    ensures Sieve(drop, lines + [l]) == if drop(l) then Sieve(drop, lines) else Sieve(drop, lines) + [l]
  {
    assert Init(lines + [l]) == lines;
  }

  /** Sieving twice drops what either sieve drops. */
  lemma {:induction false} SieveTwice(p: string -> bool, q: string -> bool, both: string -> bool, lines: seq<string>)
    requires forall l :: both(l) <==> p(l) || q(l)
    ensures Sieve(q, Sieve(p, lines)) == Sieve(both, lines)
  {
    if lines != [] {
      var kept := Sieve(p, Init(lines));
      SieveTwice(p, q, both, Init(lines));
      SieveLast(q, kept, Last(lines));
      assert Sieve(p, lines) == if p(Last(lines)) then kept else kept + [Last(lines)];
    }
  }

  lemma KeepAppend(ds: seq<string>, a: seq<string>, b: seq<string>)
    ensures Keep(ds, a + b) == Keep(ds, a) + Keep(ds, b)
  {
    SieveAppend(Matching(ds), a, b);
  }

  /** Only lines of the file that match no directive are kept, and all of those. */
  lemma KeepExact(ds: seq<string>, lines: seq<string>)
    ensures forall l :: l in Keep(ds, lines) <==> l in lines && !AmongThem(l, ds)
  {
    SieveExact(Matching(ds), lines);
  }

  lemma KeepCount(ds: seq<string>, lines: seq<string>)
    ensures |Keep(ds, lines)| <= |lines|
    ensures |Keep(ds, lines)| == |lines| ==> forall i :: 0 <= i < |lines| ==> !AmongThem(lines[i], ds)
  {
    SieveCount(Matching(ds), lines);
  }

  lemma KeepAll(ds: seq<string>, lines: seq<string>)
    requires forall i :: 0 <= i < |lines| ==> !AmongThem(lines[i], ds)
    ensures Keep(ds, lines) == lines
  {
    SieveAll(Matching(ds), lines);
  }

  lemma KeepLast(ds: seq<string>, lines: seq<string>, l: string)
    ensures Keep(ds, lines + [l]) == if AmongThem(l, ds) then Keep(ds, lines) else Keep(ds, lines) + [l]
  {
    SieveLast(Matching(ds), lines, l);
  }

  /** A line that does not match is kept, after those kept from the lines before it. */
  lemma KeepsOrder(d: string, lines: seq<string>, i: nat)
    requires i < |lines| && !Same(d, lines[i])
    ensures var at := |Keep([d], lines[..i])|; at < |Keep([d], lines)| && Keep([d], lines)[at] == lines[i]
  {
    AmongOne(lines[i], d);
    KeepAppend([d], lines[..i], lines[i..]);
    KeepAppend([d], [lines[i]], lines[i + 1..]);
    KeepLast([d], [], lines[i]);
    assert lines == lines[..i] + lines[i..] && lines[i..] == [lines[i]] + lines[i + 1..];
    assert [] + [lines[i]] == [lines[i]];
  }

  lemma AmongFirst(l: string, d: string, ds: seq<string>)
    ensures AmongThem(l, [d] + ds) <==> Same(d, l) || AmongThem(l, ds)
  {
    var all := [d] + ds;
    assert all[0] == d;
    assert forall i :: 0 <= i < |ds| ==> ds[i] == all[i + 1];
  }

  lemma AmongOne(l: string, d: string)
    ensures AmongThem(l, [d]) <==> Same(d, l)
  {
    AmongFirst(l, d, []);
    assert [d] + [] == [d];
  }

  lemma KeepTwice(d: string, ds: seq<string>, lines: seq<string>)
    ensures Keep(ds, Keep([d], lines)) == Keep([d] + ds, lines)
  {
    forall l
      ensures AmongThem(l, [d] + ds) <==> AmongThem(l, [d]) || AmongThem(l, ds)
    {
      AmongFirst(l, d, ds);
      AmongOne(l, d);
    }
    SieveTwice(Matching([d]), Matching(ds), Matching([d] + ds), lines);
  }

  /** Removing one directive after another is one pass that drops all their lines; a file left without any line is read
      back as one empty line. */
  lemma {:induction false} RemovedInOnePass(text: string, ds: seq<string>)
    ensures AllRemoved(text, ds) == Join('\n', Keep(ds, Lines(text)))
    decreases |ds|
  {
    if ds == [] {
      KeepAll(ds, Lines(text));
      JoinSplit('\n', text);
    } else {
      var d, rest := ds[0], ds[1..];
      assert [d] + rest == ds;
      RemovedInOnePass(Without(text, d), rest);
      KeepTwice(d, rest, Lines(text));
      RemovalExact(text, d);
      if Keep([d], Lines(text)) == [] {
        KeepCount(rest, [""]);
        KeepExact(rest, [""]);
      }
    }
  }

  lemma LinesOfJoin(kept: seq<string>, lines: seq<string>)
    requires OneLines(lines) && kept != [] && forall l :: l in kept ==> l in lines
    ensures Lines(Join('\n', kept)) == kept
  {
    forall i | 0 <= i < |kept|
      ensures OneLine(kept[i])
    {
      assert kept[i] in lines;
    }
    SplitJoin('\n', kept);
  }

  /** The lines after a removal are the kept ones, and none matches; but a file left without any line is read back as
      one empty line, which a blank directive matches. */
  lemma RemovalExact(text: string, d: string)
    ensures Keep([d], Lines(text)) != [] ==> Lines(Without(text, d)) == Keep([d], Lines(text))
    ensures Keep([d], Lines(text)) == [] ==> Without(text, d) == ""
    ensures Mentions(Without(text, d), d) <==> Blank(d) && Keep([d], Lines(text)) == []
  {
    SplitParts('\n', text);
    var kept := Keep([d], Lines(text));
    KeepExact([d], Lines(text));
    if kept != [] {
      LinesOfJoin(kept, Lines(text));
      forall i | 0 <= i < |kept|
        ensures !Same(kept[i], d)
      {
        assert kept[i] in kept;
        AmongOne(kept[i], d);
      }
    } else {
      AmongOne(d, "");
    }
  }

  /* What setup adds */

  lemma LinesAppended(text: string, d: string)
    requires OneLine(d)
    ensures Lines(Appended(text, d)) == Lines(text) + [d, ""]
  {
    SplitAppend('\n', text + "\n" + d, "");
    SplitAppend('\n', text, d);
    SplitNoSep('\n', d);
    assert Appended(text, d) == text + "\n" + d + ['\n'] + "";
    assert text + "\n" + d == text + ['\n'] + d;
  }

  lemma EnsureIdempotent(text: string, d: string)
    requires OneLine(d)
    ensures Mentions(Ensured(text, d), d)
    ensures Ensured(Ensured(text, d), d) == Ensured(text, d)
  {
    if !Mentions(text, d) {
      LinesAppended(text, d);
      assert Lines(Appended(text, d))[|Lines(text)|] == d;
    }
  }

  /** The directives that are not there yet when their turn comes. */
  function Fresh(lines: seq<string>, ds: seq<string>): seq<string>
    decreases |ds|
  {
    if ds == [] then []
    else if AmongThem(ds[0], lines) then Fresh(lines, ds[1..])
    else [ds[0]] + Fresh(lines + [ds[0], ""], ds[1..])
  }

  function Blocks(ds: seq<string>): seq<string> {
    if ds == [] then [] else [ds[0], ""] + Blocks(ds[1..])
  }

  lemma BlocksFirst(lines: seq<string>, d: string, rest: seq<string>)
    ensures lines + Blocks([d] + rest) == lines + [d, ""] + Blocks(rest)
  {
    assert ([d] + rest)[1..] == rest;
  }

  lemma {:induction false} LinesEnsured(text: string, ds: seq<string>)
    requires OneLines(ds)
    ensures Lines(AllEnsured(text, ds)) == Lines(text) + Blocks(Fresh(Lines(text), ds))
    decreases |ds|
  {
    if ds != [] {
      var d, rest := ds[0], ds[1..];
      LinesEnsured(Ensured(text, d), rest);
      if !Mentions(text, d) {
        LinesAppended(text, d);
        BlocksFirst(Lines(text), d, Fresh(Lines(text) + [d, ""], rest));
      }
    }
  }

  /** Nothing twice, nothing blank and nothing that is there already. */
  predicate Apart(lines: seq<string>, ds: seq<string>) {
    && (forall i :: 0 <= i < |ds| ==> !Blank(ds[i]) && !AmongThem(ds[i], lines))
    && (forall i, j :: 0 <= i < j < |ds| ==> !Same(ds[i], ds[j]))
  }

  predicate NoneBlank(ds: seq<string>) {
    forall i :: 0 <= i < |ds| ==> !Blank(ds[i])
  }

  lemma AmongAppended(l: string, lines: seq<string>, d: string)
    ensures AmongThem(l, lines + [d, ""]) <==> AmongThem(l, lines) || Same(d, l) || Blank(l)
  {
    var all := lines + [d, ""];
    assert all[|lines|] == d && all[|lines| + 1] == "";
    assert forall i :: 0 <= i < |lines| ==> all[i] == lines[i];
  }

  lemma {:induction false} FreshIff(lines: seq<string>, ds: seq<string>)
    requires NoneBlank(ds)
    ensures |Fresh(lines, ds)| <= |ds|
    ensures |Fresh(lines, ds)| == |ds| <==> Apart(lines, ds)
    decreases |ds|
  {
    if ds != [] {
      var d, rest := ds[0], ds[1..];
      forall i | 0 <= i < |rest|
        ensures rest[i] == ds[i + 1]
      {
        AmongAppended(rest[i], lines, d);
      }
      if AmongThem(d, lines) {
        FreshIff(lines, rest);
      } else {
        FreshIff(lines + [d, ""], rest);
        if Apart(lines + [d, ""], rest) {
          ApartFirst(lines, ds);
        } else if Apart(lines, ds) {
          ApartRest(lines, ds);
        }
      }
    }
  }

  lemma ApartFirst(lines: seq<string>, ds: seq<string>)
    requires ds != [] && !Blank(ds[0]) && !AmongThem(ds[0], lines) && Apart(lines + [ds[0], ""], ds[1..])
    ensures Apart(lines, ds)
  {
    forall i | 1 <= i < |ds|
      ensures !Blank(ds[i]) && !AmongThem(ds[i], lines) && !Same(ds[0], ds[i])
    {
      assert ds[1..][i - 1] == ds[i];
      AmongAppended(ds[i], lines, ds[0]);
    }
    forall i, j | 1 <= i < j < |ds|
      ensures !Same(ds[i], ds[j])
    {
      assert ds[1..][i - 1] == ds[i] && ds[1..][j - 1] == ds[j];
    }
  }

  lemma ApartRest(lines: seq<string>, ds: seq<string>)
    requires ds != [] && Apart(lines, ds)
    ensures Apart(lines + [ds[0], ""], ds[1..])
  {
    forall i | 0 <= i < |ds[1..]|
      ensures !AmongThem(ds[1..][i], lines + [ds[0], ""])
    {
      assert ds[1..][i] == ds[i + 1];
      AmongAppended(ds[1..][i], lines, ds[0]);
    }
  }

  lemma {:induction false} FreshAreDirectives(lines: seq<string>, ds: seq<string>)
    ensures forall d :: d in Fresh(lines, ds) ==> d in ds
    decreases |ds|
  {
    if ds != [] {
      FreshAreDirectives(lines, ds[1..]);
      FreshAreDirectives(lines + [ds[0], ""], ds[1..]);
    }
  }

  /* Undoing */

  lemma BlankAmong(ds: seq<string>)
    ensures AmongThem("", ds) <==> !NoneBlank(ds)
  {
  }

  lemma KeepBlock(rs: seq<string>, d: string)
    requires AmongThem(d, rs)
    ensures Keep(rs, [d, ""]) == if NoneBlank(rs) then [""] else []
  {
    BlankAmong(rs);
    KeepLast(rs, [], d);
    KeepLast(rs, [d], "");
    assert [] + [d] == [d] && [d] + [""] == [d, ""];
  }

  lemma {:induction false} KeepBlocks(rs: seq<string>, added: seq<string>)
    requires forall d :: d in added ==> AmongThem(d, rs)
    ensures Keep(rs, Blocks(added)) == if NoneBlank(rs) then seq(|added|, _ => "") else []
  {
    if added != [] {
      assert added[0] in added;
      KeepBlocks(rs, added[1..]);
      KeepAppend(rs, [added[0], ""], Blocks(added[1..]));
      KeepBlock(rs, added[0]);
    }
  }

  /** The lines left when the directives `ds` are ensured and then `rs`, which covers them, removed. */
  lemma LinesLeft(text: string, ds: seq<string>, rs: seq<string>)
    requires OneLines(ds) && forall d :: d in ds ==> AmongThem(d, rs)
    ensures var blanks := if NoneBlank(rs) then |Fresh(Lines(text), ds)| else 0;
      AllRemoved(AllEnsured(text, ds), rs) == Join('\n', Keep(rs, Lines(text)) + seq(blanks, _ => ""))
  {
    var added := Fresh(Lines(text), ds);
    LinesEnsured(text, ds);
    RemovedInOnePass(AllEnsured(text, ds), rs);
    KeepAppend(rs, Lines(text), Blocks(added));
    FreshAreDirectives(Lines(text), ds);
    KeepBlocks(rs, added);
  }

  lemma {:induction false} LinesNewlines(text: string, k: nat)
    ensures Lines(text + Newlines(k)) == Lines(text) + seq(k, _ => "")
  {
    if k == 0 {
      assert text + Newlines(0) == text;
    } else {
      LinesNewlines(text, k - 1);
      SplitAppend('\n', text + Newlines(k - 1), "");
      assert text + Newlines(k) == text + Newlines(k - 1) + ['\n'] + "";
    }
  }

  /** Removing a covering list of directives undoes the setup up to one newline per directive. */
  lemma TeardownUndoes(text: string, ds: seq<string>, rs: seq<string>)
    requires OneLines(ds) && Apart(Lines(text), ds)
    requires forall d :: d in ds ==> AmongThem(d, rs)
    requires NoneBlank(rs) && forall i :: 0 <= i < |Lines(text)| ==> !AmongThem(Lines(text)[i], rs)
    ensures AllRemoved(AllEnsured(text, ds), rs) == text + Newlines(|ds|)
  {
    LinesLeft(text, ds, rs);
    FreshIff(Lines(text), ds);
    KeepAll(rs, Lines(text));
    LinesNewlines(text, |ds|);
    JoinSplit('\n', text + Newlines(|ds|));
  }

  predicate SameDirectives(ds: seq<string>, rs: seq<string>) {
    && (forall d :: d in ds ==> AmongThem(d, rs))
    && (forall r :: r in rs ==> AmongThem(r, ds))
  }

  lemma AmongSame(l: string, ds: seq<string>, rs: seq<string>)
    requires SameDirectives(ds, rs)
    ensures AmongThem(l, ds) <==> AmongThem(l, rs)
  {
    if i :| 0 <= i < |ds| && Same(ds[i], l) {
      assert ds[i] in ds;
      var j :| 0 <= j < |rs| && Same(rs[j], ds[i]);
      assert Same(rs[j], l);
    }
    if i :| 0 <= i < |rs| && Same(rs[i], l) {
      assert rs[i] in rs;
      var j :| 0 <= j < |ds| && Same(ds[j], rs[i]);
      assert Same(ds[j], l);
    }
  }

  /** Ensuring any one-line directives and removing the same ones, in whatever order, leaves the file plus one newline
      per directive exactly if they are not blank, not in the file before and pairwise different. */
  lemma TeardownUndoesIff(text: string, ds: seq<string>, rs: seq<string>)
    requires OneLines(ds) && SameDirectives(ds, rs)
    ensures AllRemoved(AllEnsured(text, ds), rs) == text + Newlines(|ds|) <==> Apart(Lines(text), ds)
  {
    var lines := Lines(text);
    forall l
      ensures AmongThem(l, ds) <==> AmongThem(l, rs)
    {
      AmongSame(l, ds, rs);
    }
    BlankAmong(ds);
    BlankAmong(rs);
    if Apart(lines, ds) {
      NoLineAmong(lines, ds);
      TeardownUndoes(text, ds, rs);
    } else if AllRemoved(AllEnsured(text, ds), rs) == text + Newlines(|ds|) {
      UndoneOnlyIfApart(text, ds, rs);
      assert false;
    }
  }

  lemma NoLineAmong(lines: seq<string>, ds: seq<string>)
    requires Apart(lines, ds)
    ensures forall i :: 0 <= i < |lines| ==> !AmongThem(lines[i], ds)
  {
    forall i, j | 0 <= i < |lines| && 0 <= j < |ds|
      ensures !Same(ds[j], lines[i])
    {
      assert !AmongThem(ds[j], lines);
    }
  }

  lemma LinesCounted(kept: seq<string>)
    requires OneLines(kept)
    ensures |Lines(Join('\n', kept))| == if kept == [] then 1 else |kept|
  {
    if kept != [] {
      SplitJoin('\n', kept);
    }
  }

  lemma KeepOneLines(ds: seq<string>, lines: seq<string>)
    requires OneLines(lines)
    ensures OneLines(Keep(ds, lines))
  {
    KeepExact(ds, lines);
    assert forall i :: 0 <= i < |Keep(ds, lines)| ==> Keep(ds, lines)[i] in lines;
  }

  /** Otherwise the result has too few lines. */
  lemma UndoneOnlyIfApart(text: string, ds: seq<string>, rs: seq<string>)
    requires OneLines(ds) && SameDirectives(ds, rs) && (NoneBlank(ds) <==> NoneBlank(rs))
    requires AllRemoved(AllEnsured(text, ds), rs) == text + Newlines(|ds|)
    ensures Apart(Lines(text), ds)
  {
    var lines := Lines(text);
    LinesLeft(text, ds, rs);
    LinesNewlines(text, |ds|);
    SplitParts('\n', text);
    KeepCount(rs, lines);
    KeepOneLines(rs, lines);
    var blanks := if NoneBlank(rs) then |Fresh(lines, ds)| else 0;
    LinesCounted(Keep(rs, lines) + seq(blanks, _ => ""));
    assert |ds| > 0 ==> |Keep(rs, lines)| + blanks == |lines| + |ds|;
    if NoneBlank(ds) {
      FreshIff(lines, ds);
    }
  }

  /* The directives of this program */

  const DROP_IN_DIR := "/etc/dnsmasq.d/local-auto-domain"
  const LISTEN := "listen-address=127.0.0.1"
  const BIND := "bind-interfaces"
  const CONF_DIR := "conf-dir=" + DROP_IN_DIR + ",*.conf"
  const ADDN_HOSTS := "addn-hosts=" + DROP_IN_DIR + "/hosts"

  const SETUP_DIRECTIVES := [LISTEN, BIND, CONF_DIR, ADDN_HOSTS]
  const TEARDOWN_DIRECTIVES := [CONF_DIR, ADDN_HOSTS, LISTEN, BIND]

  /** The directives with the drop-in directory spelled out. */
  lemma ConfDirText()
    ensures CONF_DIR == "conf-dir=/etc/dnsmasq.d/local-auto-domain,*.conf"
  {
  }

  lemma AddnHostsText()
    ensures ADDN_HOSTS == "addn-hosts=/etc/dnsmasq.d/local-auto-domain/hosts"
  {
  }

  lemma DirectivesTrimmed(i: nat)
    requires i < 4
    ensures TrimSpace(SETUP_DIRECTIVES[i]) == SETUP_DIRECTIVES[i] && !Blank(SETUP_DIRECTIVES[i])
    ensures OneLine(SETUP_DIRECTIVES[i])
  {
    TrimUntouched(IsSpace, SETUP_DIRECTIVES[i]);
  }

  lemma MembersAmong(ds: seq<string>, rs: seq<string>)
    requires forall d :: d in ds ==> d in rs
    ensures forall d :: d in ds ==> AmongThem(d, rs)
  {
  }

  lemma SameDirectivesTwice()
    ensures SameDirectives(SETUP_DIRECTIVES, TEARDOWN_DIRECTIVES)
  {
    assert forall i :: 0 <= i < 4 ==> SETUP_DIRECTIVES[i] == TEARDOWN_DIRECTIVES[(i + 2) % 4];
    assert forall i :: 0 <= i < 4 ==> TEARDOWN_DIRECTIVES[i] == SETUP_DIRECTIVES[(i + 2) % 4];
    MembersAmong(SETUP_DIRECTIVES, TEARDOWN_DIRECTIVES);
    MembersAmong(TEARDOWN_DIRECTIVES, SETUP_DIRECTIVES);
  }

  lemma DirectivesFit(text: string)
    ensures OneLines(SETUP_DIRECTIVES) && NoneBlank(SETUP_DIRECTIVES)
    ensures Apart(Lines(text), SETUP_DIRECTIVES) <==> forall i :: 0 <= i < 4 ==> !Mentions(text, SETUP_DIRECTIVES[i])
  {
    forall i | 0 <= i < 4
      ensures TrimSpace(SETUP_DIRECTIVES[i]) == SETUP_DIRECTIVES[i] && !Blank(SETUP_DIRECTIVES[i])
      ensures OneLine(SETUP_DIRECTIVES[i])
    {
      DirectivesTrimmed(i);
    }
    assert LISTEN[0] == 'l' && BIND[0] == 'b' && CONF_DIR[0] == 'c' && ADDN_HOSTS[0] == 'a';
  }

  /** Tearing down undoes the configuration file's part of setup, up to four newlines, exactly if none of the four
      directives was in the file before. */
  lemma SetupTeardownIff(text: string)
    ensures AllRemoved(AllEnsured(text, SETUP_DIRECTIVES), TEARDOWN_DIRECTIVES) == text + "\n\n\n\n" <==>
            forall i :: 0 <= i < 4 ==> !Mentions(text, SETUP_DIRECTIVES[i])
  {
    DirectivesFit(text);
    SameDirectivesTwice();
    FourNewlines();
    TeardownUndoesIff(text, SETUP_DIRECTIVES, TEARDOWN_DIRECTIVES);
  }

  lemma FourNewlines()
    ensures Newlines(|SETUP_DIRECTIVES|) == "\n\n\n\n"
  {
  }

  /** The text once the first n directives are ensured. */
  function Stage(text: string, ds: seq<string>, n: nat): string
    requires n <= |ds|
  {
    if n == 0 then text else Ensured(Stage(text, ds, n - 1), ds[n - 1])
  }

  lemma {:induction false} StageIsAll(text: string, ds: seq<string>, n: nat)
    requires n <= |ds|
    ensures Stage(text, ds, n) == AllEnsured(text, ds[..n])
  {
    if n > 0 {
      StageIsAll(text, ds, n - 1);
      EnsuredSnoc(text, ds[..n - 1], ds[n - 1]);
      assert ds[..n] == ds[..n - 1] + [ds[n - 1]];
    }
  }

  /** Teardown also undoes a setup that stopped half way. */
  lemma PartialSetupTeardown(text: string, n: nat)
    requires n <= 4 && forall i :: 0 <= i < 4 ==> !Mentions(text, SETUP_DIRECTIVES[i])
    ensures AllRemoved(Stage(text, SETUP_DIRECTIVES, n), TEARDOWN_DIRECTIVES) == text + Newlines(n)
  {
    DirectivesFit(text);
    SameDirectivesTwice();
    PartialTeardown(text, SETUP_DIRECTIVES, TEARDOWN_DIRECTIVES, n);
  }

  lemma PartialTeardown(text: string, ds: seq<string>, rs: seq<string>, n: nat)
    requires n <= |ds| && OneLines(ds) && SameDirectives(ds, rs) && Apart(Lines(text), ds)
    ensures AllRemoved(Stage(text, ds, n), rs) == text + Newlines(n)
  {
    var lines := Lines(text);
    NoLineAmong(lines, ds);
    BlankAmong(ds);
    BlankAmong(rs);
    AmongSame("", ds, rs);
    forall i | 0 <= i < |lines|
      ensures !AmongThem(lines[i], rs)
    {
      AmongSame(lines[i], ds, rs);
    }
    StageIsAll(text, ds, n);
    TeardownUndoes(text, ds[..n], rs);
  }

  lemma {:induction false} EnsuredSnoc(text: string, ds: seq<string>, d: string)
    ensures AllEnsured(text, ds + [d]) == Ensured(AllEnsured(text, ds), d)
    decreases |ds|
  {
    if ds == [] {
      assert ds + [d] == [d];
    } else {
      EnsuredSnoc(Ensured(text, ds[0]), ds[1..], d);
      assert (ds + [d])[1..] == ds[1..] + [d];
    }
  }

  /* The file */

  /** How reading and rewriting the file turn out; a write is all-or-nothing. */
  datatype Io = Io(read: bool, write: bool)

  /** The directives whose removal reads and writes without failure. */
  function Removable(ds: seq<string>, ios: seq<Io>): seq<string>
    requires |ds| == |ios|
  {
    if ds == [] then []
    else (if ios[0].read && ios[0].write then [ds[0]] else []) + Removable(ds[1..], ios[1..])
  }

  function RemovedIf(text: string, d: string, io: Io): string {
    if io.read && io.write then Without(text, d) else text
  }

  lemma RemovableFirst(text: string, d: string, io: Io, ds: seq<string>, ios: seq<Io>)
    requires |ds| == |ios|
    ensures AllRemoved(text, Removable([d] + ds, [io] + ios)) == AllRemoved(RemovedIf(text, d, io), Removable(ds, ios))
  {
    assert ([d] + ds)[1..] == ds && ([io] + ios)[1..] == ios;
    var rest := Removable(ds, ios);
    if io.read && io.write {
      assert Removable([d] + ds, [io] + ios) == [d] + rest;
      assert ([d] + rest)[1..] == rest;
    } else {
      assert Removable([d] + ds, [io] + ios) == rest;
    }
  }

  lemma RemovableUnrolled(text: string, ds: seq<string>, ios: seq<Io>)
    requires |ds| == |ios| == 4
    ensures AllRemoved(text, Removable(ds, ios)) ==
            RemovedIf(RemovedIf(RemovedIf(RemovedIf(text, ds[0], ios[0]), ds[1], ios[1]), ds[2], ios[2]), ds[3], ios[3])
  {
    var t1 := RemovedIf(text, ds[0], ios[0]);
    var t2 := RemovedIf(t1, ds[1], ios[1]);
    var t3 := RemovedIf(t2, ds[2], ios[2]);
    RemovableFirst(text, ds[0], ios[0], ds[1..], ios[1..]);
    RemovableFirst(t1, ds[1], ios[1], ds[2..], ios[2..]);
    RemovableFirst(t2, ds[2], ios[2], ds[3..], ios[3..]);
    RemovableFirst(t3, ds[3], ios[3], [], []);
    assert forall i :: 0 <= i < 4 ==> ds[i..] == [ds[i]] + ds[i + 1..] && ios[i..] == [ios[i]] + ios[i + 1..];
    assert ds[0..] == ds && ios[0..] == ios;
  }

  /** The call for the i-th directive succeeds after those before it: the file, if it is there by then, can be read, and
      written if the directive is missing. */
  predicate CallOk(present: bool, text: string, ds: seq<string>, ios: seq<Io>, i: nat)
    requires i < |ds| == |ios|
  {
    && (ios[i].read || !(present || Stage(text, ds, i) != ""))
    && (ios[i].write || Mentions(Stage(text, ds, i), ds[i]))
  }

  predicate FirstOk(present: bool, text: string, ds: seq<string>, ios: seq<Io>, n: nat)
    requires n <= |ds| == |ios|
  {
    forall i :: 0 <= i < n ==> CallOk(present, text, ds, ios, i)
  }

  /** All calls succeed and ensure everything, or the first that fails leaves what those before it ensured. */
  predicate Outcome(present: bool, text: string, ds: seq<string>, ios: seq<Io>, ok: bool, result: string)
    requires |ds| == |ios|
  {
    if ok then FirstOk(present, text, ds, ios, |ds|) && result == Stage(text, ds, |ds|)
    else exists n :: 0 <= n < |ds| && FailsAt(present, text, ds, ios, n) && result == Stage(text, ds, n)
  }

  predicate FailsAt(present: bool, text: string, ds: seq<string>, ios: seq<Io>, n: nat)
    requires n < |ds| == |ios|
  {
    FirstOk(present, text, ds, ios, n) && !CallOk(present, text, ds, ios, n)
  }

  /** The file after n successful calls. */
  predicate Staged(present: bool, text: string, ds: seq<string>, ios: seq<Io>, n: nat, now: bool, result: string)
    requires n <= |ds| == |ios|
  {
    && FirstOk(present, text, ds, ios, n) && result == Stage(text, ds, n)
    && (now <==> present || result != "")
  }

  lemma StageFrom(present: bool, text: string, ds: seq<string>, ios: seq<Io>)
    requires |ds| == |ios| && (!present ==> text == "")
    ensures Staged(present, text, ds, ios, 0, present, text)
  {
  }

  lemma StageStep(present: bool, text: string, ds: seq<string>, ios: seq<Io>, n: nat,
                  was: bool, before: string, ok: bool, now: bool, after: string)
    requires n < |ds| == |ios| && Staged(present, text, ds, ios, n, was, before)
    requires ok <==> (ios[n].read || !was) && (Mentions(before, ds[n]) || ios[n].write)
    requires after == if ok then Ensured(before, ds[n]) else before
    requires now <==> was || (ok && !Mentions(before, ds[n]))
    ensures ok ==> Staged(present, text, ds, ios, n + 1, now, after)
    ensures !ok || n + 1 == |ds| ==> Outcome(present, text, ds, ios, ok, after)
  {
    if !ok {
      assert FailsAt(present, text, ds, ios, n);
    }
  }

  class Conf {
    var present: bool
    var text: string

    function Contents(): string
      reads this
    {
      if present then text else ""
    }

    constructor (present: bool, text: string)
      ensures this.present == present && this.text == text
    {
      this.present, this.text := present, text;
    }

    method EnsureConf(line: string, io: Io) returns (ok: bool)
      modifies this
      ensures Contents() == if ok then Ensured(old(Contents()), line) else old(Contents())
      ensures ok <==> (io.read || !old(present)) && (Mentions(old(Contents()), line) || io.write)
      ensures present <==> old(present) || (ok && !Mentions(old(Contents()), line))
    {
      if present && !io.read {
        return false;
      }
      var lines := Split('\n', Contents());
      for i := 0 to |lines|
        invariant forall k :: 0 <= k < i ==> !Same(lines[k], line)
      {
        if TrimSpace(lines[i]) == TrimSpace(line) {
          return true;
        }
      }
      if !io.write {
        return false;
      }
      present, text := true, Contents() + "\n" + line + "\n";
      return true;
    }

    method RemoveLine(line: string, io: Io)
      modifies this
      ensures present == old(present)
      ensures Contents() == if present && io.read && io.write then Without(old(Contents()), line) else old(Contents())
    {
      if !present || !io.read {
        return;
      }
      var lines := Split('\n', text);
      var kept := [];
      for i := 0 to |lines|
        invariant kept == Keep([line], lines[..i]) && unchanged(this)
      {
        assert lines[..i + 1] == lines[..i] + [lines[i]];
        KeepLast([line], lines[..i], lines[i]);
        AmongOne(lines[i], line);
        if TrimSpace(lines[i]) != TrimSpace(line) {
          kept := kept + [lines[i]];
        }
      }
      assert lines[..|lines|] == lines;
      if io.write {
        text := Join('\n', kept);
      }
    }

    /** The configuration file's part of setup, which stops at the first failure. */
    method Setup(ios: seq<Io>) returns (ok: bool)
      requires |ios| == 4
      modifies this
      ensures Outcome(old(present), old(Contents()), SETUP_DIRECTIVES, ios, ok, Contents())
    {
      ghost var was, before := present, Contents();
      StageFrom(was, before, SETUP_DIRECTIVES, ios);
      ghost var wasHere, here := present, Contents();
      ok := EnsureConf("listen-address=127.0.0.1", ios[0]);
      StageStep(was, before, SETUP_DIRECTIVES, ios, 0, wasHere, here, ok, present, Contents());
      if !ok {
        return;
      }
      wasHere, here := present, Contents();
      ok := EnsureConf("bind-interfaces", ios[1]);
      StageStep(was, before, SETUP_DIRECTIVES, ios, 1, wasHere, here, ok, present, Contents());
      if !ok {
        return;
      }
      wasHere, here := present, Contents();
      ok := EnsureConf(CONF_DIR, ios[2]);
      StageStep(was, before, SETUP_DIRECTIVES, ios, 2, wasHere, here, ok, present, Contents());
      if !ok {
        return;
      }
      wasHere, here := present, Contents();
      ok := EnsureConf(ADDN_HOSTS, ios[3]);
      StageStep(was, before, SETUP_DIRECTIVES, ios, 3, wasHere, here, ok, present, Contents());
    }

    /** The configuration file's part of teardown, which ignores failures. */
    method Teardown(ios: seq<Io>)
      requires |ios| == 4
      modifies this
      ensures present == old(present)
      ensures Contents() == if present then AllRemoved(old(Contents()), Removable(TEARDOWN_DIRECTIVES, ios))
              else old(Contents())
    {
      RemovableUnrolled(Contents(), TEARDOWN_DIRECTIVES, ios);
      RemoveLine(CONF_DIR, ios[0]);
      RemoveLine(ADDN_HOSTS, ios[1]);
      RemoveLine("listen-address=127.0.0.1", ios[2]);
      RemoveLine("bind-interfaces", ios[3]);
    }
  }
}
