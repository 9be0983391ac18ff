/** The mount-table reader: which filesystems a freeze covers. */
module Mounts {
  import opened Common

  /** A field of a line as strings.Fields returns it. */
  type Field = s: string | s != "" witness "-"

  datatype Entry = Entry(spec: string, file: string, fsType: string)

  /** What filepath.Base returns: a name without slashes, or "/" for a path of slashes alone. */
  type Base = s: string | s == "/" || (s != "" && s[0] != '/') witness "/"

  /** What the filesystem says about a device path. */
  datatype Stat = Missing | Plain | Link(base: Option<Base>)  // None: readlink failed

  /** `Panic` is Go's index-out-of-range panic. */
  datatype Listing = Listed(entries: seq<Entry>) | Failed | Panic

  datatype Verdict = Skip | Add(entry: Entry) | Fail | Crash

  predicate HasPrefix(s: string, p: string) { |p| <= |s| && s[..|p|] == p }

  predicate Present(mpoints: seq<Entry>, spec: string) {
    exists i :: 0 <= i < |mpoints| && mpoints[i].spec == spec
  }

  /** The fields of one line against the entries found so far, in the order of the cases of the source. */
  function Classify(mpoints: seq<Entry>, parts: seq<Field>, stat: string -> Stat): Verdict {
    if |parts| < 2 then Skip
    else if Present(mpoints, parts[0]) then Skip
    else if parts[0][0] != '/' then Skip
    else if |parts| < 3 then Crash
    else if parts[2] == "smbfs" || parts[2] == "cifs" then Skip
    else if HasPrefix(parts[0], "/dev/loop") then Skip
    else
      match stat(parts[0])
      case Missing => Fail
      case Link(None) => Fail
      case Link(Some(base)) =>
        if HasPrefix(base, "dm-") then Skip else Add(Entry(base, parts[1], parts[2]))
      case Plain => Add(Entry(parts[0], parts[1], parts[2]))
  }

  /** The table read so far, lines given by their fields. */
  function ReadTable(lines: seq<seq<Field>>, stat: string -> Stat): Listing {
    if lines == [] then Listed([])
    else
      var pre := ReadTable(lines[..|lines| - 1], stat);
      if !pre.Listed? then pre
      else
        match Classify(pre.entries, lines[|lines| - 1], stat)
        case Skip => pre
        case Add(e) => Listed(pre.entries + [e])
        case Fail => Failed
        case Crash => Panic
  }

  /** One more line. */
  lemma ReadLine(lines: seq<seq<Field>>, stat: string -> Stat, n: nat)
    requires n < |lines| && ReadTable(lines[..n], stat).Listed?
    ensures ReadTable(lines[..n + 1], stat) ==
            match Classify(ReadTable(lines[..n], stat).entries, lines[n], stat)
            case Skip => ReadTable(lines[..n], stat)
            case Add(e) => Listed(ReadTable(lines[..n], stat).entries + [e])
            case Fail => Failed
            case Crash => Panic
  {
    hide Classify;
    assert lines[..n + 1][..n] == lines[..n];
  }

  method GetMountPoints(lines: seq<seq<Field>>, stat: string -> Stat, readOk: bool) returns (r: Listing)
    ensures readOk ==> r == ReadTable(lines, stat)
    ensures !readOk && ReadTable(lines, stat).Listed? ==> r == Failed
    ensures !ReadTable(lines, stat).Listed? ==> r == ReadTable(lines, stat)
  {
    assert ReadTable([], stat) == Listed([]) && lines[..0] == [] && lines[..|lines|] == lines;
    assert forall s: string :: s != "" && s[0] == '/' ==> !HasPrefix(s, "dm-");
    hide ReadTable, HasPrefix;
    var mpoints: seq<Entry> := [];
    for n := 0 to |lines|
      invariant ReadTable(lines[..n], stat) == Listed(mpoints)
    {
      var parts := lines[n];
      ReadLine(lines, stat, n);
      var found := false;
      if |parts| >= 2 {
        for i := 0 to |mpoints|
          invariant found <==> exists j :: 0 <= j < i && mpoints[j].spec == parts[0]
        {
          if mpoints[i].spec == parts[0] {
            found := true;
          }
        }
      }
      if |parts| < 2 || found {
        continue;
      }
      if parts[0][0] != '/' {
        continue;
      }
      if |parts| < 3 {
        AbortKeeps(lines, stat, n + 1);
        return Panic;
      }
      if parts[2] == "smbfs" || parts[2] == "cifs" || HasPrefix(parts[0], "/dev/loop") {
        continue;
      }
      var spec: string := parts[0];
      match stat(spec) {
        case Missing =>
          AbortKeeps(lines, stat, n + 1);
          return Failed;
        case Link(None) =>
          AbortKeeps(lines, stat, n + 1);
          return Failed;
        case Link(Some(base)) => spec := base;
        case Plain =>
      }
      if HasPrefix(spec, "dm-") {
        continue;
      }
      mpoints := mpoints + [Entry(spec, parts[1], parts[2])];
    }
    if !readOk {
      return Failed;
    }
    r := Listed(mpoints);
  }

  /** Once reading has stopped, later lines do not matter. */
  lemma {:induction false} AbortKeeps(lines: seq<seq<Field>>, stat: string -> Stat, n: nat)
    requires n <= |lines| && !ReadTable(lines[..n], stat).Listed?
    ensures ReadTable(lines, stat) == ReadTable(lines[..n], stat)
    decreases |lines|
  {
    if n == |lines| {
      assert lines[..n] == lines;
    } else {
      var pre := lines[..|lines| - 1];
      assert pre[..n] == lines[..n];
      AbortKeeps(pre, stat, n);
    }
  }

  // ---------------------------------------------------------------- what the list holds

  /** The line names a real local device. */
  predicate Eligible(parts: seq<Field>) {
    && |parts| >= 3 && parts[0][0] == '/'
    && parts[2] != "smbfs" && parts[2] != "cifs"
    && !("/dev/loop" <= parts[0])
  }

  /** The root directory exists and is not a symlink. */
  ghost predicate RootIsDirectory(stat: string -> Stat) { stat("/") == Plain }

  /** The line is eligible and gives its device this name: its path, or where the link leads unless to a dm- device. */
  ghost predicate Names(parts: seq<Field>, stat: string -> Stat, spec: string) {
    && Eligible(parts)
    && match stat(parts[0])
       case Plain => spec == parts[0]
       case Link(Some(base)) => spec == base && !("dm-" <= base)
       case _ => false
  }

  ghost predicate Named(lines: seq<seq<Field>>, stat: string -> Stat, spec: string) {
    exists i :: 0 <= i < |lines| && Names(lines[i], stat, spec)
  }

  /** A plain device is listed at its first eligible line only, a symlinked one at every line unless it leads to dm-. */
  ghost predicate Selected(lines: seq<seq<Field>>, stat: string -> Stat, i: nat) {
    && i < |lines| && Eligible(lines[i])
    && match stat(lines[i][0])
       case Plain => !Named(lines[..i], stat, lines[i][0])
       case Link(Some(base)) => !("dm-" <= base)
       case _ => false
  }

  /** Line i has a device but no type, and no earlier line listed a device of this name. */
  ghost predicate Trips(lines: seq<seq<Field>>, stat: string -> Stat, i: nat) {
    i < |lines| && |lines[i]| == 2 && lines[i][0][0] == '/' && !Named(lines[..i], stat, lines[i][0])
  }

  /** Line i has an eligible device that does not exist or cannot be resolved. */
  ghost predicate Breaks(lines: seq<seq<Field>>, stat: string -> Stat, i: nat) {
    i < |lines| && Eligible(lines[i]) && stat(lines[i][0]) in {Missing, Link(None)}
  }

  ghost predicate Stops(lines: seq<seq<Field>>, stat: string -> Stat, i: nat) {
    Trips(lines, stat, i) || Breaks(lines, stat, i)
  }

  /** `at[k]` is the line entry k comes from: they are the selected lines, in table order. */
  ghost predicate ListsSelected(lines: seq<seq<Field>>, stat: string -> Stat, entries: seq<Entry>, at: seq<nat>) {
    && |at| == |entries|
    && (forall k :: 0 <= k < |at| ==> Selected(lines, stat, at[k]))
    && (forall k :: 0 <= k < |at| ==> Describes(lines[at[k]], stat, entries[k]))
    && (forall k, m :: 0 <= k < m < |at| ==> at[k] < at[m])
    && (forall i: nat :: Selected(lines, stat, i) ==> i in at)
  }

  ghost predicate Describes(parts: seq<Field>, stat: string -> Stat, e: Entry) {
    Names(parts, stat, e.spec) && e.file == parts[1] && e.fsType == parts[2]
  }

  /** The name of a device that is not plain is never taken by another line. */
  lemma OnlyPlainPathsAreNamed(lines: seq<seq<Field>>, stat: string -> Stat, spec: string)
    requires RootIsDirectory(stat) && spec != "" && spec[0] == '/' && Named(lines, stat, spec)
    ensures stat(spec) == Plain
  {
  }

  lemma NamedSnoc(lines: seq<seq<Field>>, stat: string -> Stat)
    requires lines != []
    ensures forall spec :: Named(lines, stat, spec) <==>
              Named(lines[..|lines| - 1], stat, spec) || Names(lines[|lines| - 1], stat, spec)
  {
    hide Names;
    var pre := lines[..|lines| - 1];
    assert forall i :: 0 <= i < |pre| ==> pre[i] == lines[i];
  }

  /** The properties of a line of a shorter table are those it has in the whole one. */
  lemma PrefixAgrees(lines: seq<seq<Field>>, stat: string -> Stat, n: nat, i: nat)
    requires i < n <= |lines|
    ensures Selected(lines[..n], stat, i) <==> Selected(lines, stat, i)
    ensures Trips(lines[..n], stat, i) <==> Trips(lines, stat, i)
    ensures Stops(lines[..n], stat, i) <==> Stops(lines, stat, i)
  {
    assert lines[..n][i] == lines[i] && lines[..n][..i] == lines[..i];
  }

  /** What the reader does with the last line, once the names found so far are the right ones. */
  lemma ClassifyLast(entries: seq<Entry>, lines: seq<seq<Field>>, stat: string -> Stat)
    requires RootIsDirectory(stat) && lines != []
    requires forall spec :: Present(entries, spec) <==> Named(lines[..|lines| - 1], stat, spec)
    ensures var n, v := |lines| - 1, Classify(entries, lines[|lines| - 1], stat);
      && (v.Crash? <==> Trips(lines, stat, n))
      && (v.Fail? <==> Breaks(lines, stat, n))
      && (v.Add? <==> Selected(lines, stat, n))
      && (v.Add? ==> Describes(lines[n], stat, v.entry))
      && (v.Skip? ==> forall spec :: Names(lines[n], stat, spec) ==> Present(entries, spec))
  {
    hide Named, Present;
    var parts := lines[|lines| - 1];
    if |parts| >= 2 && parts[0][0] == '/' {
      if stat(parts[0]) != Plain && Named(lines[..|lines| - 1], stat, parts[0]) {
        OnlyPlainPathsAreNamed(lines[..|lines| - 1], stat, parts[0]);
        assert false;
      }
    }
  }

  lemma PresentSnoc(entries: seq<Entry>, e: Entry)
    ensures forall spec :: Present(entries + [e], spec) <==> Present(entries, spec) || spec == e.spec
  {
    var all := entries + [e];
    assert all[|entries|] == e;
    assert forall i :: 0 <= i < |entries| ==> all[i] == entries[i];
  }

  /**
   When no line stops the reader, it lists exactly the selected lines in table order,
   and the names on the list are those of all eligible lines.
   */
  lemma {:induction false} ListsExactlySelected(lines: seq<seq<Field>>, stat: string -> Stat) returns (at: seq<nat>)
    requires RootIsDirectory(stat) && forall i: nat :: !Stops(lines, stat, i)
    ensures ReadTable(lines, stat).Listed?
    ensures ListsSelected(lines, stat, ReadTable(lines, stat).entries, at)
    ensures forall spec :: Present(ReadTable(lines, stat).entries, spec) <==> Named(lines, stat, spec)
  {
    if lines == [] {
      return [];
    }
    hide Classify, Selected, Trips, Breaks, Names, Named, Present, RootIsDirectory;
    var n := |lines| - 1;
    var pre := lines[..n];
    forall i: nat | i < n
      ensures !Stops(pre, stat, i) && (Selected(pre, stat, i) <==> Selected(lines, stat, i))
    {
      PrefixAgrees(lines, stat, n, i);
    }
    StopsAreLines(pre, stat);
    at := ListsExactlySelected(pre, stat);
    var entries := ReadTable(pre, stat).entries;
    ClassifyLast(entries, lines, stat);
    assert !Stops(lines, stat, n);
    NamedSnoc(lines, stat);
    var v := Classify(entries, lines[n], stat);
    if v.Add? {
      PresentSnoc(entries, v.entry);
      NamesOneThing(lines[n], stat, v.entry.spec);
    }
    SelectedSnoc(lines, stat, entries, at, v);
    if v.Add? {
      at := at + [n];
    }
  }

  lemma StopsAreLines(lines: seq<seq<Field>>, stat: string -> Stat)
    ensures forall i: nat :: Stops(lines, stat, i) || Selected(lines, stat, i) ==> i < |lines|
  {
  }

  lemma NamesOneThing(parts: seq<Field>, stat: string -> Stat, spec: string)
    requires Names(parts, stat, spec)
    ensures forall other :: Names(parts, stat, other) ==> other == spec
  {
  }

  lemma SelectedSnoc(lines: seq<seq<Field>>, stat: string -> Stat, entries: seq<Entry>, at: seq<nat>, v: Verdict)
    requires lines != [] && !v.Crash? && !v.Fail?
    requires ListsSelected(lines[..|lines| - 1], stat, entries, at)
    requires v.Add? <==> Selected(lines, stat, |lines| - 1)
    requires v.Add? ==> Describes(lines[|lines| - 1], stat, v.entry)
    ensures v.Add? ==> ListsSelected(lines, stat, entries + [v.entry], at + [|lines| - 1])
    ensures v.Skip? ==> ListsSelected(lines, stat, entries, at)
  {
    var n := |lines| - 1;
    var pre := lines[..n];
    forall i: nat | i < n
      ensures Selected(pre, stat, i) <==> Selected(lines, stat, i)
    {
      PrefixAgrees(lines, stat, n, i);
    }
    StopsAreLines(pre, stat);
    StopsAreLines(lines, stat);
    assert forall k :: 0 <= k < |at| ==> at[k] < n && pre[at[k]] == lines[at[k]];
    hide Selected, Describes;
    var more := at + [n];
    assert more[|at|] == n;
    assert forall k :: 0 <= k < |at| ==> more[k] == at[k];
  }

  /** Whatever the table, nothing listed is a loop device, a device-mapper node or a network filesystem. */
  lemma {:induction false} NeverListsLoopOrMapper(lines: seq<seq<Field>>, stat: string -> Stat, e: Entry, rest: string)
    requires ReadTable(lines, stat).Listed? && e in ReadTable(lines, stat).entries
    ensures e.spec != "/dev/loop" + rest && e.spec != "dm-" + rest
    ensures e.fsType != "smbfs" && e.fsType != "cifs"
  {
    hide Present;
    var pre, last := lines[..|lines| - 1], lines[|lines| - 1];
    var entries := ReadTable(pre, stat).entries;
    if e in entries {
      NeverListsLoopOrMapper(pre, stat, e, rest);
    } else {
      assert Classify(entries, last, stat) == Add(e);
      assert "/dev/loop" <= "/dev/loop" + rest && "dm-" <= "dm-" + rest;
      assert ("/dev/loop" + rest)[0] == '/' && ("dm-" + rest)[0] == 'd' && |"/dev/loop" + rest| > 1;
    }
  }

  // ---------------------------------------------------------------- when reading stops

  ghost predicate FirstStop(lines: seq<seq<Field>>, stat: string -> Stat, i: nat) {
    Stops(lines, stat, i) && forall j: nat :: j < i ==> !Stops(lines, stat, j)
  }

  /** The first line that stops the reader decides: a panic if it trips it, an error if its device is missing. */
  lemma FirstStopDecides(lines: seq<seq<Field>>, stat: string -> Stat, i: nat)
    requires RootIsDirectory(stat) && FirstStop(lines, stat, i)
    ensures ReadTable(lines, stat) == if Trips(lines, stat, i) then Panic else Failed
  {
    hide Classify, Trips, Breaks, Named, Present, RootIsDirectory;
    StopsAreLines(lines, stat);
    var pre, upTo := lines[..i], lines[..i + 1];
    forall j: nat | j < i
      ensures !Stops(pre, stat, j)
    {
      PrefixAgrees(lines, stat, i, j);
    }
    StopsAreLines(pre, stat);
    var at := ListsExactlySelected(pre, stat);
    assert upTo[..i] == pre && upTo[i] == lines[i];
    ClassifyLast(ReadTable(pre, stat).entries, upTo, stat);
    PrefixAgrees(lines, stat, i + 1, i);
    AbortKeeps(lines, stat, i + 1);
  }

  lemma {:induction false} FindFirstStop(lines: seq<seq<Field>>, stat: string -> Stat, i: nat) returns (k: nat)
    requires Stops(lines, stat, i)
    ensures FirstStop(lines, stat, k)
  {
    if j: nat :| j < i && Stops(lines, stat, j) {
      k := FindFirstStop(lines, stat, j);
    } else {
      k := i;
    }
  }

  /** The reader panics exactly when some line trips it before any device is missing, and otherwise fails or lists. */
  lemma PanicsIffSomeLineTrips(lines: seq<seq<Field>>, stat: string -> Stat)
    requires RootIsDirectory(stat)
    ensures ReadTable(lines, stat).Panic? <==>
            exists i: nat :: Trips(lines, stat, i) && forall j: nat :: j < i ==> !Breaks(lines, stat, j)
    ensures ReadTable(lines, stat).Listed? <==> forall i: nat :: !Stops(lines, stat, i)
  {
    hide Trips, Breaks, RootIsDirectory, ReadTable;
    if i: nat :| Stops(lines, stat, i) {
      var k := FindFirstStop(lines, stat, i);
      FirstStopDecides(lines, stat, k);
      forall j: nat | j < k
        ensures !Trips(lines, stat, j) && !Breaks(lines, stat, j)
      {
        assert !Stops(lines, stat, j);
      }
      if !Trips(lines, stat, k) {
        assert Breaks(lines, stat, k);
      }
    } else {
      var at := ListsExactlySelected(lines, stat);
      assert forall i: nat :: Trips(lines, stat, i) ==> Stops(lines, stat, i);
    }
  }

  // ---------------------------------------------------------------- repeats

  /** Some later line reaches through a symlink a device already named. */
  ghost predicate LinkedAgain(lines: seq<seq<Field>>, stat: string -> Stat, i: nat, j: nat, spec: string) {
    && i < j < |lines|
    && Names(lines[i], stat, spec) && Names(lines[j], stat, spec)
    && stat(lines[j][0]).Link?
  }

  ghost predicate Repeats(entries: seq<Entry>) {
    exists k, m :: 0 <= k < m < |entries| && entries[k].spec == entries[m].spec
  }

  /** A line that names a device is listed, or an earlier one that names it is. */
  lemma {:induction false} NamedMeansListed(lines: seq<seq<Field>>, stat: string -> Stat, i: nat, spec: string)
    returns (j: nat)
    requires i < |lines| && Names(lines[i], stat, spec)
    ensures j <= i && Names(lines[j], stat, spec) && Selected(lines, stat, j)
    ensures Selected(lines, stat, i) ==> j == i
  {
    if Selected(lines, stat, i) {
      j := i;
    } else {
      assert Named(lines[..i], stat, spec);
      var h :| 0 <= h < i && Names(lines[..i][h], stat, spec);
      j := NamedMeansListed(lines, stat, h, spec);
    }
  }

  /** The list names a device twice if and only if a symlink leads to a device that an earlier line names. */
  lemma RepeatsIffLinkedAgain(lines: seq<seq<Field>>, stat: string -> Stat)
    requires ReadTable(lines, stat).Listed? && RootIsDirectory(stat)
    ensures Repeats(ReadTable(lines, stat).entries) <==> exists i, j, spec :: LinkedAgain(lines, stat, i, j, spec)
  {
    hide ReadTable, RootIsDirectory;
    PanicsIffSomeLineTrips(lines, stat);
    var at := ListsExactlySelected(lines, stat);
    var entries := ReadTable(lines, stat).entries;
    if Repeats(entries) {
      var k, m :| 0 <= k < m < |entries| && entries[k].spec == entries[m].spec;
      RepeatIsLink(lines, stat, at[k], at[m], entries[k].spec);
    }
    if i, j, spec :| LinkedAgain(lines, stat, i, j, spec) {
      LinkRepeats(lines, stat, entries, at, i, j, spec);
    }
  }

  lemma RepeatIsLink(lines: seq<seq<Field>>, stat: string -> Stat, i: nat, j: nat, spec: string)
    requires i < j && Selected(lines, stat, i) && Selected(lines, stat, j)
    requires Names(lines[i], stat, spec) && Names(lines[j], stat, spec)
    ensures LinkedAgain(lines, stat, i, j, spec)
  {
    assert lines[..j][i] == lines[i];
  }

  lemma LinkRepeats(lines: seq<seq<Field>>, stat: string -> Stat, entries: seq<Entry>, at: seq<nat>,
                    i: nat, j: nat, spec: string)
    requires ListsSelected(lines, stat, entries, at) && LinkedAgain(lines, stat, i, j, spec)
    ensures Repeats(entries)
  {
    assert Selected(lines, stat, j);
    var h := NamedMeansListed(lines, stat, i, spec);
    var k :| 0 <= k < |at| && at[k] == h;
    var m :| 0 <= m < |at| && at[m] == j;
    NamesOneThing(lines[h], stat, spec);
    NamesOneThing(lines[j], stat, spec);
    assert Describes(lines[at[k]], stat, entries[k]) && Describes(lines[at[m]], stat, entries[m]);
    assert k < m;
    assert entries[k].spec == entries[m].spec;
  }
}
