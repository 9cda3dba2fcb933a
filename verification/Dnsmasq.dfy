/** The dnsmasq manager: one state file per port and an addn-hosts file derived from them. */
module Dnsmasq {
  import opened Text
  import opened NameOrder

  /* The drop-in directory and what can go wrong in it */

  /** The drop-in directory; writes are all-or-nothing. */
  datatype Dir = Dir(present: bool, files: map<string, string>)

  /** How the system calls behind one manager operation turn out: true is success. */
  datatype Outcome = Outcome(
    mkdir: bool,
    state: bool,               // writing or removing the port's state file
    list: bool,                // listing the directory in RemoveAll
    hosts: bool,               // writing the hosts file
    reload: bool,              // signalling dnsmasq; never touches the directory
    unreadable: set<string>,   // state files that cannot be read back
    stuck: set<string>         // state files RemoveAll fails to delete
  )

  /** Every file operation succeeds; the reload may fail. */
  predicate FilesOk(o: Outcome) {
    o.mkdir && o.state && o.list && o.hosts && o.unreadable == {} && o.stuck == {}
  }

  const HOSTS := "hosts"
  const PREFIX := "port-"
  const SUFFIX := ".conf"

  function ConfName(port: int): string {
    PREFIX + Itoa(port) + SUFFIX
  }

  /** `filepath.Ext`: from the last dot of the last path element. */
  function Ext(name: string): string {
    if name == "" || Last(name) == '/' then ""
    else if Last(name) == '.' then "."
    else
      var e := Ext(Init(name));
      if e == "" then "" else e + [Last(name)]
  }

  predicate IsStateFile(name: string) {
    PREFIX <= name && Ext(name) == SUFFIX
  }

  lemma ConfExt(s: string)
    ensures Ext(s + SUFFIX) == SUFFIX
  {
    var n := s + ".conf";
    assert Init(n) == s + ".con";
    assert Init(s + ".con") == s + ".co";
    assert Init(s + ".co") == s + ".c";
    assert Init(s + ".c") == s + ".";
    assert Ext(s + ".") == ".";
    assert Ext(s + ".c") == ".c";
    assert Ext(s + ".co") == ".co";
    assert Ext(s + ".con") == ".con";
  }

  lemma {:induction false} ExtIsSuffix(name: string)
    ensures |Ext(name)| <= |name| && name[|name| - |Ext(name)|..] == Ext(name)
  {
    if name != "" && Last(name) != '/' && Last(name) != '.' {
      ExtIsSuffix(Init(name));
      if Ext(Init(name)) != "" {
        var k := |name| - |Ext(name)|;
        assert name == Init(name) + [Last(name)];
        assert name[k..] == Init(name)[k..] + [Last(name)];
      }
    }
  }

  /** State files are named `port-` and anything, ending in `.conf`. */
  lemma StateFileIff(name: string)
    ensures IsStateFile(name) <==> "port-" <= name && exists stem :: name == stem + ".conf"
  {
    ExtIsSuffix(name);
    if Ext(name) == ".conf" {
      assert name == name[..|name| - 5] + ".conf";
    }
    if stem :| name == stem + ".conf" {
      ConfExt(stem);
    }
  }

  /** A port's state file name spells the port. */
  lemma ConfNameReads(port: int)
    requires IsInt64(port)
    ensures var name := ConfName(port);
      |name| > 10 && name[..5] == "port-" && name[|name| - 5..] == ".conf" && Atoi(name[5..|name| - 5]) == port
  {
    AtoiItoa(port);
    ItoaChars(port);
    assert ConfName(port)[5..|ConfName(port)| - 5] == Itoa(port);
  }

  /** State file names tell ports apart, and no other file of the directory has one. */
  lemma ConfNames(p: int, q: int)
    ensures IsStateFile(ConfName(p)) && ConfName(p) != HOSTS && !IsStateFile(HOSTS)
    ensures ConfName(p) == ConfName(q) <==> p == q
  {
    ConfExt(PREFIX + Itoa(p));
    assert ConfName(p) == (PREFIX + Itoa(p)) + SUFFIX;
    assert ConfName(p)[0] == 'p' && HOSTS[0] == 'h';
    if ConfName(p) == ConfName(q) {
      assert Itoa(p) == ConfName(p)[5..|ConfName(p)| - 5];
      assert Itoa(q) == ConfName(q)[5..|ConfName(q)| - 5];
      ItoaInjective(p, q);
    }
  }

  /* Validation */

  /** Dotted-decimal IPv4 as `net.ParseIP` takes it: four fields up to 255, no leading zeros. */
  predicate IsOctet(s: string) {
    1 <= |s| <= 3 && All(IsDigit, s) && Value(s) <= 255 && (|s| > 1 ==> s[0] != '0')
  }

  predicate IsIPv4(s: string) {
    var parts := Split('.', s);
    |parts| == 4 && forall i :: 0 <= i < 4 ==> IsOctet(parts[i])
  }

  predicate IsHexDigit(c: char) {
    IsDigit(c) || 'a' <= c <= 'f' || 'A' <= c <= 'F'
  }

  predicate AreHextets(parts: seq<string>) {
    forall i :: 0 <= i < |parts| ==> 1 <= |parts[i]| <= 4 && All(IsHexDigit, parts[i])
  }

  /** The number of 16-bit groups of a colon-separated text, or -1 if it is malformed; with `dotted` the last part
      may be a dotted-decimal address, which stands for two groups. */
  function Groups(text: string, dotted: bool): int {
    var parts := Split(':', text);
    if text == "" then 0
    else if AreHextets(parts) then |parts|
    else if dotted && AreHextets(Init(parts)) && IsIPv4(Last(parts)) then |parts| + 1
    else -1
  }

  predicate EllipsisAt(s: string, k: nat) {
    && k + 2 <= |s| && s[k] == ':' && s[k + 1] == ':'
    && Groups(s[..k], false) >= 0 && Groups(s[k + 2..], true) >= 0
    && Groups(s[..k], false) + Groups(s[k + 2..], true) < 8
  }

  /** Eight groups, or fewer with an ellipsis (section 2.2 of RFC 4291); `net.ParseIP` takes no zone. */
  predicate IsIPv6(s: string) {
    Groups(s, true) == 8 || exists k :: 0 <= k < |s| && EllipsisAt(s, k)
  }

  predicate ParsesAsIP(s: string) {
    IsIPv4(s) || IsIPv6(s)
  }

  predicate IsHostChar(c: char) {
    IsAlnum(c) || c == '-' || c == '.'
  }

  /** The pattern ^[a-zA-Z0-9][a-zA-Z0-9.\-]*$. */
  predicate ValidHostname(s: string) {
    s != "" && IsAlnum(s[0]) && All(IsHostChar, s)
  }

  /** Letters, digits, hyphens and dots, of which the first is a letter or digit. */
  lemma HostnameIff(s: string)
    ensures ValidHostname(s) <==>
            && s != "" && s[0] != '-' && s[0] != '.'
            && forall c :: c in s ==> c in UPPER_LETTERS || c in LOWER_LETTERS || c in DIGITS || c == '-' || c == '.'
  {
    forall c | c in s
      ensures IsHostChar(c) <==> c in UPPER_LETTERS || c in LOWER_LETTERS || c in DIGITS || c == '-' || c == '.'
    {
      LettersAndDigits(c);
    }
    assert forall i :: 0 <= i < |s| ==> s[i] in s;
  }

  predicate Accepted(name: string, ip: string) {
    ParsesAsIP(TrimSpace(ip)) && ValidHostname(TrimSpace(name))
  }

  /* The derived hosts file */

  function StateFiles(files: map<string, string>): map<string, string> {
    map name | name in files && IsStateFile(name) :: files[name]
  }

  function Content(files: map<string, string>, name: string): string {
    if name in files then files[name] else ""
  }

  /** The line a file contributes, if any. */
  function Line(files: map<string, string>, name: string): seq<string> {
    var line := TrimSpace(Content(files, name));
    if line == "" then [] else [line]
  }

  function Lines(files: map<string, string>, order: seq<string>): seq<string> {
    if order == [] then [] else Lines(files, Init(order)) + Line(files, Last(order))
  }

  function Terminated(lines: seq<string>): string {
    Join('\n', lines) + if lines == [] then "" else "\n"
  }

  /** The hosts file for these state files: their trimmed non-empty contents in file-name order. */
  function HostsText(files: map<string, string>): string {
    Terminated(Lines(files, Sorted(files.Keys)))
  }

  lemma LinesSnoc(files: map<string, string>, order: seq<string>, name: string)
    ensures Lines(files, order + [name]) == Lines(files, order) + Line(files, name)
  {
    assert Init(order + [name]) == order;
  }

  lemma {:induction false} LinesFiltered(files: map<string, string>, order: seq<string>)
    ensures Lines(files, Filter(files.Keys, order)) == Lines(files, order)
  {
    if order != [] {
      LinesFiltered(files, Init(order));
      var kept := Filter(files.Keys, Init(order));
      if Last(order) in files {
        LinesSnoc(files, kept, Last(order));
      } else {
        assert Content(files, Last(order)) == "";
        assert Line(files, Last(order)) == [];
        assert Filter(files.Keys, order) == kept;
      }
    }
  }

  /** Files outside the map leave no trace in its hosts text. */
  lemma LinesSorted(files: map<string, string>, names: set<string>)
    requires files.Keys <= names
    ensures Lines(files, Sorted(names)) == Lines(files, Sorted(files.Keys))
  {
    FilterSorted(files.Keys, names);
    LinesFiltered(files, Sorted(names));
  }

  function HostsBytes(d: Dir): string {
    Content(d.files, HOSTS)
  }

  predicate InSync(d: Dir) {
    HostsBytes(d) == HostsText(StateFiles(d.files))
  }

  /* Operations as functions of the directory; the boolean is success */

  function StateLine(name: string, ip: string): string {
    ip + "\t" + name
  }

  /** Rebuilding the hosts file and reloading, the common tail of every operation. */
  function Rebuilt(d: Dir, o: Outcome): (Dir, bool) {
    if !d.present || !o.hosts then (d, false)
    else (d.(files := d.files[HOSTS := HostsText(Readable(d.files, o.unreadable))]), o.reload)
  }

  function Added(d: Dir, port: int, name: string, ip: string, o: Outcome): (Dir, bool) {
    if !Accepted(name, ip) || !o.mkdir then (d, false)
    else if !o.state then (Dir(true, d.files), false)
    else Rebuilt(Dir(true, d.files[ConfName(port) := StateLine(TrimSpace(name), TrimSpace(ip)) + "\n"]), o)
  }

  function Removed(d: Dir, port: int, o: Outcome): (Dir, bool) {
    if d.present && !o.state then (d, false)
    else Rebuilt(d.(files := d.files - {ConfName(port)}), o)
  }

  function RemovedAll(d: Dir, o: Outcome): (Dir, bool) {
    if !d.present then (d, true)
    else if !o.list then (d, false)
    else Rebuilt(d.(files := d.files - (StateFiles(d.files).Keys - o.stuck)), o)
  }

  ghost function Without(files: map<string, string>, visited: seq<string>, doomed: set<string>): map<string, string> {
    if visited == [] then files
    else if Last(visited) in doomed then Without(files, Init(visited), doomed) - {Last(visited)}
    else Without(files, Init(visited), doomed)
  }

  lemma WithoutNext(files: map<string, string>, entries: seq<string>, i: nat, doomed: set<string>)
    requires i < |entries|
    ensures Without(files, entries[..i + 1], doomed) ==
            if entries[i] in doomed then Without(files, entries[..i], doomed) - {entries[i]}
            else Without(files, entries[..i], doomed)
  {
    assert Init(entries[..i + 1]) == entries[..i] && Last(entries[..i + 1]) == entries[i];
  }

  lemma {:induction false} WithoutAll(files: map<string, string>, visited: seq<string>, doomed: set<string>)
    ensures Without(files, visited, doomed) == files - (set n | n in visited && n in doomed)
    ensures (forall n :: n in doomed ==> n in visited) ==> Without(files, visited, doomed) == files - doomed
  {
    if visited != [] {
      WithoutAll(files, Init(visited), doomed);
      assert forall n :: n in visited <==> n in Init(visited) || n == Last(visited);
    }
  }

  lemma DoomedListed(files: map<string, string>, stuck: set<string>, entries: seq<string>)
    requires forall n :: n in files ==> n in entries
    ensures forall n :: n in StateFiles(files).Keys - stuck ==> n in entries
  {
  }

  lemma DoomedIff(files: map<string, string>, stuck: set<string>, name: string)
    requires name in files
    ensures name in StateFiles(files).Keys - stuck <==> IsStateFile(name) && name !in stuck
  {
  }

  function Readable(files: map<string, string>, unreadable: set<string>): map<string, string> {
    StateFiles(files) - unreadable
  }

  /** The loop of writeHostsFile over the directory entries. */
  method CollectLines(files: map<string, string>, entries: seq<string>, unreadable: set<string>)
    returns (lines: seq<string>)
    ensures lines == Lines(Readable(files, unreadable), entries)
  {
    lines := [];
    ghost var readable := Readable(files, unreadable);
    for i := 0 to |entries|
      invariant lines == Lines(readable, entries[..i])
    {
      assert Init(entries[..i + 1]) == entries[..i];
      if entries[i] in files && IsStateFile(entries[i]) && entries[i] !in unreadable {
        var line := TrimSpace(files[entries[i]]);
        if line != "" {
          lines := lines + [line];
        }
      }
    }
    assert entries[..|entries|] == entries;
  }

  /** The manager itself: the source's methods over a directory it updates in place. */
  class Manager {
    var present: bool
    var files: map<string, string>

    ghost predicate Valid()
      reads this
    {
      !present ==> files == map[]
    }

    ghost function View(): Dir
      reads this
    {
      Dir(present, files)
    }

    constructor (present: bool, files: map<string, string>)
      requires !present ==> files == map[]
      ensures Valid() && View() == Dir(present, files)
    {
      this.present, this.files := present, files;
    }

    method Add(port: int, name: AsciiText, ip: AsciiText, o: Outcome) returns (ok: bool)
      requires Valid()
      modifies this
      ensures Valid()
      ensures (View(), ok) == Added(old(View()), port, name, ip, o)
    {
      var ip' := TrimSpace(ip);
      var name' := TrimSpace(name);
      if !ParsesAsIP(ip') || !ValidHostname(name') {
        return false;
      }
      if !o.mkdir {
        return false;
      }
      present := true;
      if !o.state {
        return false;
      }
      files := files[ConfName(port) := ip' + "\t" + name' + "\n"];
      ok := WriteHostsFile(o);
      ok := ok && o.reload;
    }

    method Remove(port: int, o: Outcome) returns (ok: bool)
      requires Valid()
      modifies this
      ensures Valid()
      ensures (View(), ok) == Removed(old(View()), port, o)
    {
      if present && !o.state {
        return false;
      }
      files := files - {ConfName(port)};
      ok := WriteHostsFile(o);
      ok := ok && o.reload;
    }

    method RemoveAll(o: Outcome) returns (ok: bool)
      requires Valid()
      modifies this
      ensures Valid()
      ensures (View(), ok) == RemovedAll(old(View()), o)
    {
      if !present {
        return true;
      }
      if !o.list {
        return false;
      }
      DeleteStateFiles(o);
      ok := WriteHostsFile(o);
      ok := ok && o.reload;
    }

    method DeleteStateFiles(o: Outcome)
      requires Valid()
      modifies this`files
      ensures Valid()
      ensures files == old(files) - (StateFiles(old(files)).Keys - o.stuck)
    {
      var entries := Sorted(files.Keys);
      ghost var before, doomed := files, StateFiles(files).Keys - o.stuck;
      SortedElements(before.Keys);
      for i := 0 to |entries|
        invariant Valid()
        invariant files == Without(before, entries[..i], doomed)
      {
        WithoutNext(before, entries, i, doomed);
        DoomedIff(before, o.stuck, entries[i]);
        if IsStateFile(entries[i]) && entries[i] !in o.stuck {
          files := files - {entries[i]};
        }
      }
      assert entries[..|entries|] == entries;
      DoomedListed(before, o.stuck, entries);
      WithoutAll(before, entries, doomed);
    }

    /** Overwrites the hosts file; without the directory the write fails. */
    method WriteHostsFile(o: Outcome) returns (ok: bool)
      requires Valid()
      modifies this`files
      ensures Valid()
      ensures ok == (present && o.hosts)
      ensures View() == Rebuilt(old(View()), o).0
    {
      var entries := Sorted(files.Keys);
      var lines := CollectLines(files, entries, o.unreadable);
      LinesSorted(Readable(files, o.unreadable), files.Keys);
      var content := Join('\n', lines);
      if |lines| > 0 {
        content := content + "\n";
      }
      assert content == HostsText(Readable(files, o.unreadable));
      ok := present && o.hosts;
      if ok {
        files := files[HOSTS := content];
      }
    }
  }
}
