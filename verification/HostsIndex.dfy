/** The hosts file as an index: what it says about the ports added and removed so far. */
module HostsIndex {
  import opened Text
  import opened NameOrder
  import opened Dnsmasq

  datatype Record = Record(ip: string, name: string)

  predicate Good(r: Record) {
    ParsesAsIP(r.ip) && ValidHostname(r.name)
  }

  /* How state files change under map updates */

  lemma StateFilesPut(files: map<string, string>, port: int, content: string)
    ensures StateFiles(files[ConfName(port) := content]) == StateFiles(files)[ConfName(port) := content]
  {
    ConfNames(port, port);
  }

  lemma StateFilesHosts(files: map<string, string>, content: string)
    ensures StateFiles(files[HOSTS := content]) == StateFiles(files)
  {
    ConfNames(0, 0);
  }

  lemma ReadableAll(files: map<string, string>)
    ensures Readable(files, {}) == StateFiles(files)
  {
    assert StateFiles(files) - {} == StateFiles(files);
  }

  /** When the rebuild succeeds, the state files stay and the hosts file is in sync, whatever the reload does. */
  lemma RebuiltInSync(d: Dir, o: Outcome)
    requires d.present && FilesOk(o)
    ensures var r := Rebuilt(d, o).0;
      r.present && InSync(r) && StateFiles(r.files) == StateFiles(d.files)
      && r.files == d.files[HOSTS := HostsText(StateFiles(d.files))]
  {
    ReadableAll(d.files);
    StateFilesHosts(d.files, HostsText(StateFiles(d.files)));
  }

  function StateContent(name: string, ip: string): string {
    StateLine(TrimSpace(name), TrimSpace(ip)) + "\n"
  }

  function WithState(files: map<string, string>, port: int, content: string): map<string, string> {
    files[ConfName(port) := content][HOSTS := HostsText(StateFiles(files)[ConfName(port) := content])]
  }

  lemma AddedFiles(d: Dir, port: int, name: string, ip: string, o: Outcome)
    requires Accepted(name, ip) && FilesOk(o)
    ensures var r := Added(d, port, name, ip, o).0;
      && r == Dir(true, WithState(d.files, port, StateContent(name, ip))) && InSync(r)
      && StateFiles(r.files) == StateFiles(d.files)[ConfName(port) := StateContent(name, ip)]
  {
    var content := StateContent(name, ip);
    StateFilesPut(d.files, port, content);
    RebuiltInSync(Dir(true, d.files[ConfName(port) := content]), o);
  }

  lemma RemovedFiles(d: Dir, port: int, o: Outcome)
    requires d.present && FilesOk(o)
    ensures var r := Removed(d, port, o).0;
      r.present && InSync(r) && StateFiles(r.files) == StateFiles(d.files) - {ConfName(port)}
  {
    RebuiltInSync(Dir(true, d.files - {ConfName(port)}), o);
    StateFilesDrop(d.files, ConfName(port));
  }

  lemma StateFilesDrop(files: map<string, string>, name: string)
    ensures StateFiles(files - {name}) == StateFiles(files) - {name}
  {
  }

  lemma RemovedAllFiles(d: Dir, o: Outcome)
    requires d.present && FilesOk(o)
    ensures var r := RemovedAll(d, o).0; r.present && InSync(r) && StateFiles(r.files) == map[]
  {
    var rest := d.files - (StateFiles(d.files).Keys - o.stuck);
    RebuiltInSync(Dir(true, rest), o);
    assert StateFiles(rest) == map[];
  }

  /* The rebuild has no history */

  /** Adds for distinct ports commute byte for byte, accepted or not, reloaded or not. */
  lemma AddsCommute(d: Dir, p: int, name1: AsciiText, ip1: AsciiText, q: int, name2: AsciiText, ip2: AsciiText,
                    o1: Outcome, o2: Outcome, o3: Outcome, o4: Outcome)
    requires p != q
    requires FilesOk(o1) && FilesOk(o2) && FilesOk(o3) && FilesOk(o4)
    ensures Added(Added(d, p, name1, ip1, o1).0, q, name2, ip2, o2).0 ==
            Added(Added(d, q, name2, ip2, o3).0, p, name1, ip1, o4).0
  {
    if Accepted(name1, ip1) && Accepted(name2, ip2) {
      AddedFiles(d, p, name1, ip1, o1);
      AddedFiles(Added(d, p, name1, ip1, o1).0, q, name2, ip2, o2);
      AddedFiles(d, q, name2, ip2, o3);
      AddedFiles(Added(d, q, name2, ip2, o3).0, p, name1, ip1, o4);
      WithStateCommutes(d.files, p, StateContent(name1, ip1), q, StateContent(name2, ip2));
    }
  }

  lemma WithStateCommutes(files: map<string, string>, p: int, c1: string, q: int, c2: string)
    requires p != q
    ensures WithState(WithState(files, p, c1), q, c2) == WithState(WithState(files, q, c2), p, c1)
  {
    ConfNames(p, q);
    ConfNames(q, p);
    StateFilesWithState(files, p, c1);
    StateFilesWithState(files, q, c2);
    var np, nq, f := ConfName(p), ConfName(q), StateFiles(files);
    PutsCommute(f, np, c1, nq, c2);
    OverwriteCommutes(files, np, c1, nq, c2, HOSTS, HostsText(f[np := c1]), HostsText(f[nq := c2]),
        HostsText(f[np := c1][nq := c2]));
  }

  lemma PutsCommute<K, V>(m: map<K, V>, a: K, x: V, b: K, y: V)
    requires a != b
    ensures m[a := x][b := y] == m[b := y][a := x]
  {
  }

  lemma OverwriteCommutes<K, V>(m: map<K, V>, a: K, x: V, b: K, y: V, h: K, u: V, v: V, w: V)
    requires a != b && a != h && b != h
    ensures m[a := x][h := u][b := y][h := w] == m[b := y][h := v][a := x][h := w]
  {
  }

  lemma StateFilesWithState(files: map<string, string>, port: int, content: string)
    ensures StateFiles(WithState(files, port, content)) == StateFiles(files)[ConfName(port) := content]
  {
    StateFilesPut(files, port, content);
    StateFilesHosts(files[ConfName(port) := content], HostsText(StateFiles(files)[ConfName(port) := content]));
  }

  /** Adding a port that had no state file and removing it again leaves the state files as they were; the
      hosts bytes come back exactly when they were in sync before. */
  lemma RemoveUndoesAdd(d: Dir, port: int, name: AsciiText, ip: AsciiText, o1: Outcome, o2: Outcome)
    requires Accepted(name, ip) && ConfName(port) !in d.files && FilesOk(o1) && FilesOk(o2)
    ensures var r := Removed(Added(d, port, name, ip, o1).0, port, o2).0;
      && StateFiles(r.files) == StateFiles(d.files)
      && (HostsBytes(r) == HostsBytes(d) <==> InSync(d))
  {
    var a := Added(d, port, name, ip, o1).0;
    AddedFiles(d, port, name, ip, o1);
    RemovedFiles(a, port, o2);
    PutThenDrop(StateFiles(d.files), ConfName(port), StateContent(name, ip));
  }

  lemma PutThenDrop(files: map<string, string>, name: string, content: string)
    requires name !in files
    ensures files[name := content] - {name} == files
  {
  }

  /* Reading the hosts file back */

  /** One record per line, fields separated by tabs; the text after the last newline is not a line. */
  function ReadHosts(text: string): seq<seq<string>> {
    var lines := Split('\n', text);
    seq(|lines| - 1, i requires 0 <= i < |lines| - 1 => Split('\t', lines[i]))
  }

  predicate IsAddressChar(c: char) {
    IsHexDigit(c) || c == '.' || c == ':'
  }

  lemma IPv4Chars(s: string)
    requires IsIPv4(s)
    ensures s != "" && forall c :: c in s ==> IsAddressChar(c)
  {
    JoinSplit('.', s);
    forall c | c in s
      ensures IsAddressChar(c)
    {
      JoinChars('.', Split('.', s), c);
    }
    assert Split('.', s) != [""];
  }

  lemma HextetChars(part: string, c: char)
    requires All(IsHexDigit, part) && c in part
    ensures IsAddressChar(c)
  {
  }

  lemma GroupChars(text: string, dotted: bool)
    requires Groups(text, dotted) >= 0
    ensures forall c :: c in text ==> IsAddressChar(c)
  {
    var parts := Split(':', text);
    JoinSplit(':', text);
    forall c | c in text
      ensures IsAddressChar(c)
    {
      JoinChars(':', parts, c);
      if c != ':' {
        var i :| 0 <= i < |parts| && c in parts[i];
        if !AreHextets(parts) && i == |parts| - 1 {
          IPv4Chars(parts[i]);
        } else {
          assert !AreHextets(parts) ==> Init(parts)[i] == parts[i];
          HextetChars(parts[i], c);
        }
      }
    }
  }

  lemma IPChars(s: string)
    requires ParsesAsIP(s)
    ensures s != "" && forall c :: c in s ==> IsAddressChar(c)
  {
    if IsIPv4(s) {
      IPv4Chars(s);
    } else if Groups(s, true) == 8 {
      GroupChars(s, true);
    } else {
      var k: nat :| k < |s| && EllipsisAt(s, k);
      GroupChars(s[..k], false);
      GroupChars(s[k + 2..], true);
      assert s == s[..k] + "::" + s[k + 2..];
    }
  }

  /** Groups written with single colons, and a dotted-decimal tail, if any, that stands for two more. */
  ghost predicate GroupsText(text: string, groups: seq<string>, tail: string, dotted: bool) {
    && AreHextets(groups) && (tail != "" ==> dotted && IsIPv4(tail))
    && text == Join(':', groups + if tail == "" then [] else [tail])
  }

  function Weight(groups: seq<string>, tail: string): nat {
    |groups| + if tail == "" then 0 else 2
  }

  lemma HextetNoColon(parts: seq<string>)
    requires AreHextets(parts)
    ensures forall i :: 0 <= i < |parts| ==> ':' !in parts[i]
  {
    forall i | 0 <= i < |parts|
      ensures ':' !in parts[i]
    {
      assert forall k :: 0 <= k < |parts[i]| ==> IsHexDigit(parts[i][k]);
    }
  }

  lemma IPv4NotHextet(s: string)
    requires IsIPv4(s)
    ensures ':' !in s && '.' in s && s != ""
  {
    IPv4Chars(s);
    JoinSplit('.', s);
    var parts := Split('.', s);
    if '.' !in s {
      SplitNoSep('.', s);
    }
    if ':' in s {
      JoinChars('.', parts, ':');
    }
  }

  lemma GroupsOfText(text: string, groups: seq<string>, tail: string, dotted: bool)
    requires GroupsText(text, groups, tail, dotted)
    ensures Groups(text, dotted) == Weight(groups, tail)
  {
    var parts := groups + if tail == "" then [] else [tail];
    HextetNoColon(groups);
    if tail != "" {
      IPv4NotHextet(tail);
      assert Init(parts) == groups && Last(parts) == tail;
      assert parts[|parts| - 1] == tail;
      assert exists k :: 0 <= k < |tail| && tail[k] == '.';
      assert !All(IsHexDigit, tail);
    } else {
      assert parts == groups;
    }
    assert Split(':', "") == [""];
    assert forall i :: 0 <= i < |parts| ==> parts[i] != "";
    if parts != [] {
      SplitJoin(':', parts);
    }
  }

  lemma TextOfGroups(text: string, dotted: bool) returns (groups: seq<string>, tail: string)
    requires Groups(text, dotted) >= 0
    ensures GroupsText(text, groups, tail, dotted) && Groups(text, dotted) == Weight(groups, tail)
  {
    var parts := Split(':', text);
    JoinSplit(':', text);
    if text == "" {
      groups, tail := [], "";
      assert groups + [] == [];
    } else if AreHextets(parts) {
      groups, tail := parts, "";
      assert groups + [] == parts;
    } else {
      groups, tail := Init(parts), Last(parts);
      IPv4NotHextet(tail);
      assert groups + [tail] == parts;
    }
  }

  ghost predicate FullIPv6(s: string, groups: seq<string>, tail: string) {
    GroupsText(s, groups, tail, true) && Weight(groups, tail) == 8
  }

  ghost predicate ShortIPv6(s: string, left: seq<string>, right: seq<string>, tail: string, rest: string) {
    && GroupsText(rest, right, tail, true) && AreHextets(left)
    && s == Join(':', left) + "::" + rest && |left| + Weight(right, tail) < 8
  }

  /** IPv6 text is eight groups, or an ellipsis between two lists of fewer than eight in all; a group is one to four
      hexadecimal digits, and the last two may be written as an IPv4 address. */
  lemma IPv6Iff(s: string)
    ensures IsIPv6(s) <==> (exists groups, tail :: FullIPv6(s, groups, tail)) ||
                           (exists left, right, tail, rest :: ShortIPv6(s, left, right, tail, rest))
  {
    if IsIPv6(s) {
      IPv6IsWritten(s);
    }
    if groups, tail :| FullIPv6(s, groups, tail) {
      GroupsOfText(s, groups, tail, true);
    }
    if left, right, tail, rest :| ShortIPv6(s, left, right, tail, rest) {
      ShortIsIPv6(s, left, right, tail, rest);
    }
  }

  lemma IPv6IsWritten(s: string)
    requires IsIPv6(s)
    ensures (exists groups, tail :: FullIPv6(s, groups, tail)) ||
            (exists left, right, tail, rest :: ShortIPv6(s, left, right, tail, rest))
  {
    if Groups(s, true) == 8 {
      var groups, tail := TextOfGroups(s, true);
      assert FullIPv6(s, groups, tail);
    } else {
      var k: nat :| k < |s| && EllipsisAt(s, k);
      var left, right, tail := ShortIsWritten(s, k);
    }
  }

  lemma ShortIsWritten(s: string, k: nat) returns (left: seq<string>, right: seq<string>, tail: string)
    requires k < |s| && EllipsisAt(s, k)
    ensures ShortIPv6(s, left, right, tail, s[k + 2..])
  {
    var none;
    left, none := TextOfGroups(s[..k], false);
    right, tail := TextOfGroups(s[k + 2..], true);
    assert left + [] == left;
    assert s == s[..k] + "::" + s[k + 2..];
  }

  lemma ShortIsIPv6(s: string, left: seq<string>, right: seq<string>, tail: string, rest: string)
    requires ShortIPv6(s, left, right, tail, rest)
    ensures IsIPv6(s)
  {
    var l := Join(':', left);
    assert left + [] == left;
    GroupsOfText(l, left, "", false);
    GroupsOfText(rest, right, tail, true);
    var k := |l|;
    assert s[..k] == l && s[k + 2..] == rest && s[k] == ':' && s[k + 1] == ':';
    assert EllipsisAt(s, k);
  }

  /** Validation keeps separators out of the fields, so a state line reads back unambiguously. */
  lemma LineReadsBack(r: Record)
    requires Good(r)
    ensures var line := StateLine(r.name, r.ip);
      TrimSpace(line + "\n") == line && line != "" && '\n' !in line && Split('\t', line) == [r.ip, r.name]
  {
    IPChars(r.ip);
    assert r.ip[0] in r.ip;
    assert IsHostChar(Last(r.name));
    FieldsReadBack(r.ip, r.name);
  }

  lemma FieldsReadBack(ip: string, name: string)
    requires ip != "" && NotSpace(ip[0]) && name != "" && NotSpace(Last(name))
    requires '\n' !in ip && '\n' !in name && '\t' !in ip && '\t' !in name
    ensures var line := StateLine(name, ip);
      TrimSpace(line + "\n") == line && line != "" && '\n' !in line && Split('\t', line) == [ip, name]
  {
    var line := StateLine(name, ip);
    assert line[0] == ip[0] && Last(line) == Last(name);
    TrimClosing(IsSpace, line, '\n');
    SplitAppend('\t', ip, name);
    SplitNoSep('\t', ip);
    SplitNoSep('\t', name);
  }

  lemma TerminatedReadsBack(lines: seq<string>)
    requires forall i :: 0 <= i < |lines| ==> '\n' !in lines[i]
    ensures Split('\n', Terminated(lines)) == lines + [""]
  {
    if lines == [] {
      assert Terminated(lines) == "";
    } else {
      JoinAppend('\n', lines, [""]);
      assert Join('\n', [""]) == "";
      assert Terminated(lines) == Join('\n', lines + [""]);
      SplitJoin('\n', lines + [""]);
    }
  }

  lemma {:induction false} LinesEach(files: map<string, string>, order: seq<string>)
    requires forall i :: 0 <= i < |order| ==> TrimSpace(Content(files, order[i])) != ""
    ensures |Lines(files, order)| == |order|
    ensures forall i :: 0 <= i < |order| ==> Lines(files, order)[i] == TrimSpace(Content(files, order[i]))
  {
    if order != [] {
      LinesEach(files, Init(order));
    }
  }

  function Records(m: map<int, Record>, ports: seq<int>): seq<seq<string>> {
    seq(|ports|, i requires 0 <= i < |ports| => if ports[i] in m then [m[ports[i]].ip, m[ports[i]].name] else [])
  }

  ghost predicate IsImage(f: int -> string, keys: set<int>, n: string) {
    exists k :: k in keys && n == f(k)
  }

  /** An enumeration of names is, name by name, an enumeration of the keys they are the images of. */
  lemma {:induction false} Preimages(f: int -> string, keys: set<int>, order: seq<string>) returns (ports: seq<int>)
    requires forall i :: 0 <= i < |order| ==> IsImage(f, keys, order[i])
    ensures |ports| == |order|
    ensures forall i :: 0 <= i < |order| ==> ports[i] in keys && order[i] == f(ports[i])
  {
    if order == [] {
      ports := [];
    } else {
      assert forall i :: 0 <= i < |Init(order)| ==> Init(order)[i] == order[i];
      ports := Preimages(f, keys, Init(order));
      assert IsImage(f, keys, order[|order| - 1]);
      var p :| p in keys && order[|order| - 1] == f(p);
      ports := ports + [p];
    }
  }

  lemma PreimagesEnumerate(f: int -> string, keys: set<int>, order: seq<string>, ports: seq<int>)
    requires NoDuplicates(order) && |ports| == |order|
    requires forall j, k :: j in keys && k in keys && f(j) == f(k) ==> j == k
    requires forall k :: k in keys ==> f(k) in order
    requires forall i :: 0 <= i < |order| ==> ports[i] in keys && order[i] == f(ports[i])
    ensures Enumerates(ports, keys)
  {
    forall k | k in keys
      ensures k in ports
    {
      var i :| 0 <= i < |order| && order[i] == f(k);
      assert ports[i] == k;
    }
    forall i, j | 0 <= i < j < |ports|
      ensures ports[i] != ports[j]
    {
      assert order[i] != order[j];
    }
  }

  /** Lines that are `ip TAB name` read back as those pairs. */
  lemma LinesReadBack(lines: seq<string>, m: map<int, Record>, ports: seq<int>)
    requires |ports| == |lines|
    requires forall i :: 0 <= i < |lines| ==>
               ports[i] in m && Good(m[ports[i]]) && lines[i] == StateLine(m[ports[i]].name, m[ports[i]].ip)
    ensures ReadHosts(Terminated(lines)) == Records(m, ports)
  {
    forall i | 0 <= i < |lines|
      ensures '\n' !in lines[i] && Split('\t', lines[i]) == [m[ports[i]].ip, m[ports[i]].name]
    {
      LineReadsBack(m[ports[i]]);
    }
    TerminatedReadsBack(lines);
  }

  /** The files hold exactly the state lines of the index, under the names f gives its ports. */
  ghost predicate Holds(f: int -> string, files: map<string, string>, m: map<int, Record>) {
    Covers(f, files, m) && forall n :: n in files ==> IsImage(f, m.Keys, n)
  }

  /** Each record's state line is in its file. */
  ghost predicate Covers(f: int -> string, files: map<string, string>, m: map<int, Record>) {
    forall p :: p in m ==> Good(m[p]) && f(p) in files && files[f(p)] == StateLine(m[p].name, m[p].ip) + "\n"
  }

  lemma CoversPut(f: int -> string, files: map<string, string>, m: map<int, Record>, port: int, record: Record)
    requires Covers(f, files, m) && Good(record)
    requires forall j, k :: f(j) == f(k) ==> j == k
    ensures Covers(f, files[f(port) := StateLine(record.name, record.ip) + "\n"], m[port := record])
    ensures port !in m ==> Covers(f, files[f(port) := StateLine(record.name, record.ip) + "\n"], m)
  {
  }

  lemma CoversDrop(f: int -> string, files: map<string, string>, m: map<int, Record>, port: int)
    requires Covers(f, files, m)
    requires forall j, k :: f(j) == f(k) ==> j == k
    ensures Covers(f, files - {f(port)}, m - {port})
  {
  }

  /** A state file's line is one of the lines of the hosts file, whatever other state files there are. */
  lemma ServedLine(files: map<string, string>, name: string, record: Record)
    requires Good(record) && name in files && files[name] == StateLine(record.name, record.ip) + "\n"
    ensures StateLine(record.name, record.ip) in Split('\n', HostsText(files))
  {
    var order, line := Sorted(files.Keys), StateLine(record.name, record.ip);
    SortedElements(files.Keys);
    LineReadsBack(record);
    assert name in order;
    var i :| 0 <= i < |order| && order[i] == name;
    LineListed(files, order, i);
    LineSplit(Lines(files, order), line);
  }

  lemma {:induction false} LineListed(files: map<string, string>, order: seq<string>, i: nat)
    requires i < |order| && TrimSpace(Content(files, order[i])) != ""
    ensures TrimSpace(Content(files, order[i])) in Lines(files, order)
  {
    if i < |order| - 1 {
      LineListed(files, Init(order), i);
    }
  }

  lemma {:induction false} LineSplit(lines: seq<string>, line: string)
    requires line in lines && '\n' !in line
    ensures line in Split('\n', Terminated(lines))
  {
    SplitNoSep('\n', line);
    var rest := lines[1..];
    if |lines| == 1 {
      SplitAppend('\n', line, "");
      assert Terminated(lines) == line + "\n" + "";
    } else {
      SplitAppend('\n', lines[0], Terminated(rest));
      assert Terminated(lines) == lines[0] + "\n" + Terminated(rest);
      if lines[0] != line {
        LineSplit(rest, line);
      }
    }
  }

  /** The directory holds exactly the state files of this index. */
  ghost predicate Represents(d: Dir, m: map<int, Record>) {
    Holds(ConfName, StateFiles(d.files), m)
  }

  lemma HeldLines(f: int -> string, files: map<string, string>, m: map<int, Record>, order: seq<string>,
                  ports: seq<int>)
    requires Holds(f, files, m) && |ports| == |order|
    requires forall i :: 0 <= i < |order| ==> ports[i] in m && order[i] == f(ports[i])
    ensures var lines := Lines(files, order);
      |lines| == |order| && forall i :: 0 <= i < |order| ==> lines[i] == StateLine(m[ports[i]].name, m[ports[i]].ip)
  {
    forall i | 0 <= i < |order|
      ensures TrimSpace(Content(files, order[i])) == StateLine(m[ports[i]].name, m[ports[i]].ip) != ""
    {
      var p := ports[i];
      assert p in m;
      assert order[i] == f(p);
      LineReadsBack(m[p]);
    }
    LinesEach(files, order);
  }

  lemma HeldReadBack(f: int -> string, files: map<string, string>, m: map<int, Record>)
    requires Holds(f, files, m)
    requires forall j, k :: f(j) == f(k) ==> j == k
    ensures exists ports :: Enumerates(ports, m.Keys) && ReadHosts(HostsText(files)) == Records(m, ports)
  {
    var ports := KeysInOrder(f, m.Keys, files.Keys);
    HeldLines(f, files, m, Sorted(files.Keys), ports);
    LinesReadBack(Lines(files, Sorted(files.Keys)), m, ports);
  }

  /** The hosts file lists exactly these records, each once. */
  ghost predicate ReadsBackAs(d: Dir, m: map<int, Record>) {
    exists ports :: Enumerates(ports, m.Keys) && ReadHosts(HostsBytes(d)) == Records(m, ports)
  }

  /** Splitting the hosts file on newlines and tabs gives each port's record exactly once. */
  lemma HostsReadBack(d: Dir, m: map<int, Record>)
    requires Represents(d, m) && InSync(d)
    ensures ReadsBackAs(d, m)
  {
    ConfNamesInjective();
    HeldReadBack(ConfName, StateFiles(d.files), m);
  }

  lemma ConfNamesInjective()
    ensures forall j, k :: ConfName(j) == ConfName(k) ==> j == k
  {
    forall j, k | ConfName(j) == ConfName(k)
      ensures j == k
    {
      ConfNames(j, k);
    }
  }

  lemma KeysInOrder(f: int -> string, keys: set<int>, names: set<string>) returns (ports: seq<int>)
    requires forall j, k :: f(j) == f(k) ==> j == k
    requires forall k :: k in keys ==> f(k) in names
    requires forall n :: n in names ==> IsImage(f, keys, n)
    ensures |ports| == |Sorted(names)|
    ensures forall i :: 0 <= i < |ports| ==> ports[i] in keys && Sorted(names)[i] == f(ports[i])
    ensures Enumerates(ports, keys)
  {
    SortedElements(names);
    ports := Preimages(f, keys, Sorted(names));
    PreimagesEnumerate(f, keys, Sorted(names), ports);
  }

  /* Refinement over whole histories */

  datatype Op = Add(port: int, name: AsciiText, ip: AsciiText, o: Outcome) | Remove(port: int,
      o: Outcome) | RemoveAll(o: Outcome)

  function Perform(d: Dir, op: Op): Dir {
    match op
    case Add(port, name, ip, o) => Added(d, port, name, ip, o).0
    case Remove(port, o) => Removed(d, port, o).0
    case RemoveAll(o) => RemovedAll(d, o).0
  }

  /** The same operation on a plain map from port to record. */
  function Abstract(m: map<int, Record>, op: Op): map<int, Record> {
    match op
    case Add(port, name, ip, _) => if Accepted(name, ip) then m[port := Record(TrimSpace(ip), TrimSpace(name))] else m
    case Remove(port, _) => m - {port}
    case RemoveAll(_) => map[]
  }

  function PerformAll(d: Dir, ops: seq<Op>): Dir {
    if ops == [] then d else Perform(PerformAll(d, Init(ops)), Last(ops))
  }

  function AbstractAll(ops: seq<Op>): map<int, Record> {
    if ops == [] then map[] else Abstract(AbstractAll(Init(ops)), Last(ops))
  }

  ghost predicate WellFormed(d: Dir) {
    !d.present ==> d.files == map[]
  }

  /** The operation rewrites the hosts file, if there is a directory. */
  predicate Rebuilds(op: Op) {
    op.Add? ==> Accepted(op.name, op.ip)
  }

  lemma NothingInSync(d: Dir)
    requires StateFiles(d.files) == map[]
    ensures InSync(d) <==> HostsBytes(d) == ""
  {
    assert Sorted({}) == [];
  }

  lemma PerformRepresents(d: Dir, m: map<int, Record>, op: Op)
    requires WellFormed(d) && Represents(d, m) && FilesOk(op.o)
    ensures WellFormed(Perform(d, op)) && Represents(Perform(d, op), Abstract(m, op))
    ensures InSync(d) || Rebuilds(op) ==> InSync(Perform(d, op))
  {
    if !d.present {
      assert StateFiles(d.files) == map[];
      NothingInSync(d);
    }
    match op
    case Add(port, name, ip, o) =>
      if Accepted(name, ip) {
        AddedFiles(d, port, name, ip, o);
        PutRepresents(d, m, Perform(d, op), port, Record(TrimSpace(ip), TrimSpace(name)));
      }
    case Remove(port, o) =>
      if d.present {
        RemovedFiles(d, port, o);
        DropRepresents(d, m, Perform(d, op), port);
      } else {
        NothingRepresented(d, m);
        assert Perform(d, op) == d && Abstract(m, op) == m;
      }
    case RemoveAll(o) =>
      if d.present {
        RemovedAllFiles(d, o);
        NoStateFiles(Perform(d, op).files);
      } else {
        NothingRepresented(d, m);
      }
  }

  lemma NoStateFiles(files: map<string, string>)
    requires StateFiles(files) == map[]
    ensures forall n :: n in files ==> !IsStateFile(n)
  {
    forall n | n in files
      ensures !IsStateFile(n)
    {
      assert IsStateFile(n) ==> n in StateFiles(files);
    }
  }

  lemma NothingRepresented(d: Dir, m: map<int, Record>)
    requires d.files == map[] && Represents(d, m)
    ensures m == map[]
  {
    forall p
      ensures p !in m
    {
      assert p in m ==> ConfName(p) in d.files;
    }
  }

  lemma PutRepresents(d: Dir, m: map<int, Record>, r: Dir, port: int, record: Record)
    requires Represents(d, m) && Good(record)
    requires StateFiles(r.files) == StateFiles(d.files)[ConfName(port) := StateLine(record.name, record.ip) + "\n"]
    ensures Represents(r, m[port := record])
  {
    ConfNamesInjective();
    HoldsPut(ConfName, StateFiles(d.files), m, port, record);
  }

  lemma DropRepresents(d: Dir, m: map<int, Record>, r: Dir, port: int)
    requires Represents(d, m)
    requires StateFiles(r.files) == StateFiles(d.files) - {ConfName(port)}
    ensures Represents(r, m - {port})
  {
    ConfNamesInjective();
    HoldsDrop(ConfName, StateFiles(d.files), m, port);
  }

  lemma HoldsDrop(f: int -> string, files: map<string, string>, m: map<int, Record>, port: int)
    requires Holds(f, files, m)
    requires forall j, k :: f(j) == f(k) ==> j == k
    ensures Holds(f, files - {f(port)}, m - {port})
  {
    forall n | n in files - {f(port)}
      ensures IsImage(f, (m - {port}).Keys, n)
    {
      assert IsImage(f, m.Keys, n);
      var k :| k in m.Keys && n == f(k);
      assert k in (m - {port}).Keys;
    }
  }

  lemma HoldsPut(f: int -> string, files: map<string, string>, m: map<int, Record>, port: int, record: Record)
    requires Holds(f, files, m) && Good(record)
    requires forall j, k :: f(j) == f(k) ==> j == k
    ensures Holds(f, files[f(port) := StateLine(record.name, record.ip) + "\n"], m[port := record])
  {
    var m' := m[port := record];
    forall n | n in files || n == f(port)
      ensures IsImage(f, m'.Keys, n)
    {
      if n == f(port) {
        assert port in m'.Keys;
      } else {
        assert IsImage(f, m.Keys, n);
        var k :| k in m.Keys && n == f(k);
        assert k in m'.Keys;
      }
    }
  }

  lemma {:induction false} HistoryRepresents(d: Dir, ops: seq<Op>)
    requires WellFormed(d) && StateFiles(d.files) == map[]
    requires forall i :: 0 <= i < |ops| ==> FilesOk(ops[i].o)
    ensures WellFormed(PerformAll(d, ops)) && Represents(PerformAll(d, ops), AbstractAll(ops))
    ensures HostsBytes(d) == "" || (exists i :: 0 <= i < |ops| && Rebuilds(ops[i])) ==> InSync(PerformAll(d, ops))
  {
    if ops == [] {
      NoStateFiles(d.files);
      NothingInSync(d);
    } else {
      HistoryRepresents(d, Init(ops));
      PerformRepresents(PerformAll(d, Init(ops)), AbstractAll(Init(ops)), Last(ops));
      if i :| 0 <= i < |ops| && Rebuilds(ops[i]) {
        assert i < |ops| - 1 ==> Init(ops)[i] == ops[i];
      }
    }
  }

  lemma {:induction false} NothingPerformed(d: Dir, ops: seq<Op>)
    requires forall i :: 0 <= i < |ops| ==> !Rebuilds(ops[i])
    ensures PerformAll(d, ops) == d && AbstractAll(ops) == map[]
  {
    if ops != [] {
      NothingPerformed(d, Init(ops));
      assert !Rebuilds(Last(ops));
    }
  }

  lemma FirstMember<T>(s: seq<T>)
    ensures s != [] ==> s[0] in s
  {
  }

  /** A hosts file reads back as no record at all exactly if it has no complete line. */
  lemma NoLinesReadBack(d: Dir)
    ensures ReadsBackAs(d, map[]) <==> '\n' !in HostsBytes(d)
  {
    var text := HostsBytes(d);
    if '\n' in text {
      var i :| 0 <= i < |text| && text[i] == '\n';
      SplitAppend('\n', text[..i], text[i + 1..]);
      assert text == text[..i] + ['\n'] + text[i + 1..];
      forall ports: seq<int> | Enumerates(ports, {})
        ensures |ports| == 0
      {
        FirstMember(ports);
      }
    } else {
      SplitNoSep('\n', text);
      var none: seq<int> := [];
      var nothing: map<int, Record> := map[];
      assert Enumerates(none, nothing.Keys);
    }
  }

  /** After any history whose file operations succeed, the hosts file read back is the abstract map, exactly if some
      operation rewrote the file or what was left in it before has no complete line. */
  lemma IndexRefinement(d: Dir, ops: seq<Op>)
    requires WellFormed(d) && StateFiles(d.files) == map[]
    requires forall i :: 0 <= i < |ops| ==> FilesOk(ops[i].o)
    ensures ReadsBackAs(PerformAll(d, ops), AbstractAll(ops)) <==>
            (exists i :: 0 <= i < |ops| && Rebuilds(ops[i])) || '\n' !in HostsBytes(d)
  {
    if exists i :: 0 <= i < |ops| && Rebuilds(ops[i]) {
      HistoryRepresents(d, ops);
      HostsReadBack(PerformAll(d, ops), AbstractAll(ops));
    } else {
      NothingPerformed(d, ops);
      NoLinesReadBack(d);
    }
  }

  /* Frame */

  /** The name of a port's state file, or one like it. */
  ghost predicate IsPortFile(name: string) {
    "port-" <= name && exists stem :: name == stem + ".conf"
  }

  /** Neither such a file nor the hosts file. */
  ghost predicate Foreign(name: string) {
    !IsPortFile(name) && name != "hosts"
  }

  ghost predicate SameForeign(a: map<string, string>, b: map<string, string>) {
    forall n :: n in a.Keys + b.Keys && Foreign(n) ==> n in a && n in b && a[n] == b[n]
  }

  lemma ForeignIff(name: string)
    ensures Foreign(name) <==> !IsStateFile(name) && name != HOSTS
  {
    StateFileIff(name);
  }

  lemma PutForeign(files: map<string, string>, name: string, content: string)
    requires !Foreign(name)
    ensures SameForeign(files, files[name := content])
  {
  }

  lemma DropForeign(files: map<string, string>, names: set<string>)
    requires forall n :: n in names ==> !Foreign(n)
    ensures SameForeign(files, files - names)
  {
  }

  lemma RebuiltForeign(d: Dir, before: map<string, string>, o: Outcome)
    requires SameForeign(before, d.files)
    ensures SameForeign(before, Rebuilt(d, o).0.files)
  {
    PutForeign(d.files, HOSTS, HostsText(Readable(d.files, o.unreadable)));
  }

  lemma AddForeign(d: Dir, port: int, name: string, ip: string, o: Outcome)
    ensures SameForeign(d.files, Added(d, port, name, ip, o).0.files)
  {
    var content := StateContent(name, ip);
    ConfNames(port, port);
    ForeignIff(ConfName(port));
    PutForeign(d.files, ConfName(port), content);
    RebuiltForeign(Dir(true, d.files[ConfName(port) := content]), d.files, o);
  }

  lemma RemoveForeign(d: Dir, port: int, o: Outcome)
    ensures SameForeign(d.files, Removed(d, port, o).0.files)
  {
    ConfNames(port, port);
    ForeignIff(ConfName(port));
    DropForeign(d.files, {ConfName(port)});
    RebuiltForeign(d.(files := d.files - {ConfName(port)}), d.files, o);
  }

  lemma RemoveAllForeign(d: Dir, o: Outcome)
    ensures SameForeign(d.files, RemovedAll(d, o).0.files)
  {
    var doomed := StateFiles(d.files).Keys - o.stuck;
    forall n | n in doomed
      ensures !Foreign(n)
    {
      ForeignIff(n);
    }
    DropForeign(d.files, doomed);
    RebuiltForeign(d.(files := d.files - doomed), d.files, o);
  }

  lemma PerformKeepsForeign(d: Dir, op: Op)
    ensures SameForeign(d.files, Perform(d, op).files)
  {
    match op
    case Add(port, name, ip, o) => AddForeign(d, port, name, ip, o);
    case Remove(port, o) => RemoveForeign(d, port, o);
    case RemoveAll(o) => RemoveAllForeign(d, o);
  }

  /** Under every failure the manager's operations leave all other files of the directory, such as the startup
      configuration 00-port.conf, as they were. */
  lemma {:induction false} ForeignFilesKept(d: Dir, ops: seq<Op>)
    ensures SameForeign(d.files, PerformAll(d, ops).files)
  {
    if ops != [] {
      ForeignFilesKept(d, Init(ops));
      PerformKeepsForeign(PerformAll(d, Init(ops)), Last(ops));
    }
  }

  /** And the content of such a file never gets into the hosts file. */
  lemma ForeignIgnored(files: map<string, string>, name: string, content: string, unreadable: set<string>)
    requires Foreign(name)
    ensures HostsText(Readable(files[name := content], unreadable)) == HostsText(Readable(files, unreadable))
    ensures HostsText(Readable(files - {name}, unreadable)) == HostsText(Readable(files, unreadable))
  {
    ForeignIff(name);
    assert StateFiles(files[name := content]) == StateFiles(files);
    assert StateFiles(files - {name}) == StateFiles(files);
  }

  lemma StartupFileForeign()
    ensures Foreign("00-port.conf")
  {
    var name := "00-port.conf";
    assert name[0] == '0';
  }

  /** In particular of 00-port.conf, which every operation leaves as it is, under every failure. */
  lemma StartupFileKept(d: Dir, ops: seq<Op>)
    ensures "00-port.conf" in d.files <==> "00-port.conf" in PerformAll(d, ops).files
    ensures "00-port.conf" in d.files ==> PerformAll(d, ops).files["00-port.conf"] == d.files["00-port.conf"]
  {
    StartupFileForeign();
    ForeignFilesKept(d, ops);
    var name := "00-port.conf";
    assert name in d.files.Keys + PerformAll(d, ops).files.Keys ==> name in d.files && name in PerformAll(d, ops).files;
  }

  /** What success of an add means, under whatever else went wrong: the state file and, unless it cannot be read back,
      the hosts file have the line. */
  lemma AddOkServes(d: Dir, port: int, name: AsciiText, ip: AsciiText, o: Outcome)
    ensures var (r, ok), line := Added(d, port, name, ip, o), StateLine(TrimSpace(name), TrimSpace(ip));
      ok ==>
        && ConfName(port) in r.files && r.files[ConfName(port)] == line + "\n"
        && (ConfName(port) !in o.unreadable ==> line in Split('\n', HostsBytes(r)))
  {
    ConfNames(port, port);
    var record := Record(TrimSpace(ip), TrimSpace(name));
    var written := d.files[ConfName(port) := StateContent(name, ip)];
    if Added(d, port, name, ip, o).1 && ConfName(port) !in o.unreadable {
      ServedLine(Readable(written, o.unreadable), ConfName(port), record);
    }
  }

  /* Groups of an IPv6 address */

  function Power16(n: nat): nat {
    if n == 0 then 1 else 16 * Power16(n - 1)
  }

  lemma {:induction false} Power16Grows(n: nat)
    requires n > 4
    ensures Power16(n) > 0x10000
  {
    assert Power16(2) == 0x100 && Power16(4) == 0x10000;
    if n > 5 {
      Power16Grows(n - 1);
    }
  }

  predicate IsHexCharacter(c: char) {
    c in DIGITS || c in {'a', 'b', 'c', 'd', 'e', 'f', 'A', 'B', 'C', 'D', 'E', 'F'}
  }

  lemma HexCharacters(c: char)
    ensures IsHexDigit(c) <==> IsHexCharacter(c)
  {
    LettersAndDigits(c);
  }

  lemma AllHexIff(s: string)
    ensures All(IsHexDigit, s) <==> forall i :: 0 <= i < |s| ==> IsHexCharacter(s[i])
  {
    forall i | 0 <= i < |s|
      ensures IsHexDigit(s[i]) <==> IsHexCharacter(s[i])
    {
      HexCharacters(s[i]);
    }
  }

  /** A group has as many hexadecimal digits as are sure to fit 16 bits. */
  lemma HextetIff(s: string)
    ensures AreHextets([s]) <==>
            s != "" && Power16(|s|) <= 0x10000 && forall i :: 0 <= i < |s| ==> IsHexCharacter(s[i])
  {
    AllHexIff(s);
    FourDigits(|s|);
    assert [s][0] == s;
  }

  lemma FourDigits(n: nat)
    ensures Power16(n) <= 0x10000 <==> n <= 4
  {
    if n > 4 {
      Power16Grows(n);
    } else {
      assert Power16(0) == 1 && Power16(1) == 0x10 && Power16(2) == 0x100 && Power16(3) == 0x1000 &&
             Power16(4) == 0x10000;
    }
  }
}
