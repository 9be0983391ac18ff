/** Which filesystems of a mount table a Freeze covers. */
module Coverage {
  import opened Common
  import opened Freeze
  import opened Mounts

  /** The filesystems opened, in order: a freeze opens the mount point of each entry. */
  function Opened(entries: seq<Entry>, fsAt: string -> Fs): seq<Fs> {
    seq<Fs>(|entries|, i requires 0 <= i < |entries| => fsAt(entries[i].file))
  }

  /** Lines that name the same device are mounts of the same filesystem. */
  ghost predicate OneFsPerDevice(lines: seq<seq<Field>>, stat: string -> Stat, fsAt: string -> Fs) {
    forall i, j, spec |
      0 <= i < |lines| && 0 <= j < |lines| && Names(lines[i], stat, spec) && Names(lines[j], stat, spec) ::
      fsAt(lines[i][1]) == fsAt(lines[j][1])
  }

  /** Line i is listed and is a mount of fs. */
  ghost predicate Lists(lines: seq<seq<Field>>, stat: string -> Stat, fsAt: string -> Fs, i: nat, fs: Fs) {
    Selected(lines, stat, i) && fsAt(lines[i][1]) == fs
  }

  /** Line i is eligible, does not lead to a dm- device, and is a mount of fs. */
  ghost predicate MountsFs(lines: seq<seq<Field>>, stat: string -> Stat, fsAt: string -> Fs, i: nat, fs: Fs) {
    i < |lines| && (exists spec :: Names(lines[i], stat, spec)) && fsAt(lines[i][1]) == fs
  }

  lemma OpenedAreListed(lines: seq<seq<Field>>, stat: string -> Stat, entries: seq<Entry>, at: seq<nat>,
                        fsAt: string -> Fs, fs: Fs)
    requires ListsSelected(lines, stat, entries, at)
    ensures fs in Members(Opened(entries, fsAt)) <==> exists i: nat :: Lists(lines, stat, fsAt, i, fs)
  {
    var walked := Opened(entries, fsAt);
    if fs in Members(walked) {
      var k :| 0 <= k < |walked| && walked[k] == fs;
      assert Describes(lines[at[k]], stat, entries[k]);
      assert Lists(lines, stat, fsAt, at[k], fs);
    }
    if i: nat :| Lists(lines, stat, fsAt, i, fs) {
      var k :| 0 <= k < |at| && at[k] == i;
      assert Describes(lines[at[k]], stat, entries[k]);
      assert walked[k] == fs;
    }
  }

  /** With one filesystem per device, skipping repeated devices loses none. */
  lemma ListedCoversMounted(lines: seq<seq<Field>>, stat: string -> Stat, fsAt: string -> Fs, fs: Fs)
    requires OneFsPerDevice(lines, stat, fsAt)
    ensures (exists i: nat :: Lists(lines, stat, fsAt, i, fs)) <==> exists i: nat :: MountsFs(lines, stat, fsAt, i, fs)
  {
    if i: nat :| Lists(lines, stat, fsAt, i, fs) {
      SelectedIsNamed(lines, stat, i);
      assert MountsFs(lines, stat, fsAt, i, fs);
    }
    if i: nat :| MountsFs(lines, stat, fsAt, i, fs) {
      var spec :| Names(lines[i], stat, spec);
      var j := NamedMeansListed(lines, stat, i, spec);
      assert Lists(lines, stat, fsAt, j, fs);
    }
  }

  lemma SelectedIsNamed(lines: seq<seq<Field>>, stat: string -> Stat, i: nat)
    requires Selected(lines, stat, i)
    ensures exists spec :: Names(lines[i], stat, spec)
  {
    match stat(lines[i][0])
    case Plain => assert Names(lines[i], stat, lines[i][0]);
    case Link(Some(base)) => assert Names(lines[i], stat, base);
    case _ =>
  }

  /**
   After a Freeze that meets no failure, exactly those filesystems are newly frozen
   that support it and that some listed line mounts; when lines of one device mount one
   filesystem these are the filesystems of all eligible lines but those that lead to dm-.
   */
  lemma CleanFreezeCovers(a: Agent, lines: seq<seq<Field>>, stat: string -> Stat, fsAt: string -> Fs, f: Fs -> Fault)
    requires RootIsDirectory(stat) && ReadTable(lines, stat).Listed?
    requires forall fs: Fs, i: nat :: Lists(lines, stat, fsAt, i, fs) ==>
               f(fs).NoFault? || f(fs).Unsupported?
    ensures var after := FreezeBy(a, Opened(ReadTable(lines, stat).entries, fsAt), f);
      && after.locked
      && (forall fs: Fs :: fs in after.frozen <==>
            fs in a.frozen || (f(fs).NoFault? && exists i: nat :: Lists(lines, stat, fsAt, i, fs)))
      && (OneFsPerDevice(lines, stat, fsAt) ==>
            forall fs: Fs :: fs in after.frozen <==>
              fs in a.frozen || (f(fs).NoFault? && exists i: nat :: MountsFs(lines, stat, fsAt, i, fs)))
  {
    hide ReadTable, Lists, MountsFs, FreezeBy, Members, OneFsPerDevice;
    PanicsIffSomeLineTrips(lines, stat);
    var at := ListsExactlySelected(lines, stat);
    var walked := Opened(ReadTable(lines, stat).entries, fsAt);
    forall fs: Fs
      ensures fs in Members(walked) <==> exists i: nat :: Lists(lines, stat, fsAt, i, fs)
      ensures OneFsPerDevice(lines, stat, fsAt) ==>
                ((exists i: nat :: Lists(lines, stat, fsAt, i, fs)) <==>
                 (exists i: nat :: MountsFs(lines, stat, fsAt, i, fs)))
    {
      OpenedAreListed(lines, stat, ReadTable(lines, stat).entries, at, fsAt, fs);
      if OneFsPerDevice(lines, stat, fsAt) {
        ListedCoversMounted(lines, stat, fsAt, fs);
      }
    }
    FreezeReachesAll(a, walked, f);
  }
}
