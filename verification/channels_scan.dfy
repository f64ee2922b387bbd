/** `scanFiles` of the channel-menu generator: the directory walk, given as the
    list of entries `filepath.Walk` visits, is folded into a map from directory
    name to base name to file kind to file name. Every operation takes the
    generator `g` it models: as written, or with the audio suffix recognised in
    any case (see `KindOf`). */
module ChannelsScan {
  import opened Text
  import opened ChannelsNames

  /** One visit of the walk: a file, given by the name of its parent directory
      and its own name; a directory, which the scan skips; or a failure, which
      stops the walk. */
  datatype WalkEntry = FileAt(dir: string, name: string) | DirAt | WalkFailure(message: string)

  /** Directory name, then base name, then kind, then file name. */
  type FileMap = map<string, map<string, map<string, string>>>

  /** The effect of one file on the map: the entries for its directory and its
      base name are created when missing, and a file of a known kind is
      recorded under the kind `g` gives it, replacing any file recorded there
      before. */
  function Record(g: Generator, fm: FileMap, dir: string, name: string): FileMap {
    var base := BaseName(name);
    var inner := if dir in fm then fm[dir] else map[];
    var files := if base in inner then inner[base] else map[];
    var recorded := match KindOf(g, name)
      case Some(k) => files[k := name]
      case None => files;
    fm[dir := inner[base := recorded]]
  }

  /** Recording a file stores it under its kind, creates its entries, keeps
      every other entry and every other kind of the same base name, and adds
      nothing else. */
  lemma RecordStores(g: Generator, fm: FileMap, dir: string, name: string)
    ensures var r := Record(g, fm, dir, name);
      var b := BaseName(name);
      dir in r && b in r[dir]
      && (forall k :: KindOf(g, name) == Some(k) ==> k in r[dir][b] && r[dir][b][k] == name)
      && (forall d :: d in fm ==> d in r && forall b' :: b' in fm[d] ==> b' in r[d])
      && (forall d, b' :: d in r && b' in r[d] ==> (d in fm && b' in fm[d]) || (d == dir && b' == b))
      && (forall d, b' :: d in fm && b' in fm[d] && (d != dir || b' != b) ==> r[d][b'] == fm[d][b'])
      && (forall k :: k in r[dir][b] && KindOf(g, name) != Some(k)
            ==> dir in fm && b in fm[dir] && k in fm[dir][b] && r[dir][b][k] == fm[dir][b][k])
  {
  }

  /** The map after the given entries, or the failure that stopped the walk. */
  function Scan(g: Generator, entries: seq<WalkEntry>): Result<FileMap, string>
    decreases |entries|
  {
    if |entries| == 0 then Ok(map[])
    else
      var prev := Scan(g, entries[..|entries| - 1]);
      if prev.Err? then prev
      else match entries[|entries| - 1]
        case WalkFailure(m) => Err("error walking directory: " + m)
        case DirAt => prev
        case FileAt(d, n) => Ok(Record(g, prev.value, d, n))
  }

  /** `scanFiles`: the walk callback applied to each entry in turn, updating the
      nested map in place. */
  method ScanFiles(g: Generator, entries: seq<WalkEntry>) returns (r: Result<FileMap, string>)
    ensures r == Scan(g, entries)
  {
    var fileMap: FileMap := map[];
    var i := 0;
    while i < |entries|
      invariant 0 <= i <= |entries|
      invariant Scan(g, entries[..i]) == Ok(fileMap)
    {
      assert entries[..i + 1][..i] == entries[..i];
      match entries[i] {
      case WalkFailure(m) =>
        r := Err("error walking directory: " + m);
        ScanErrorPersists(g, entries, i + 1);
        return;
      case DirAt =>
      case FileAt(dir, name) =>
        fileMap := VisitFile(g, fileMap, dir, name);
      }
      i := i + 1;
    }
    assert entries[..i] == entries;
    r := Ok(fileMap);
  }

  /** The walk callback for one file: the directory's and the base name's maps
      are made when missing, then the file is stored under its kind. Go's maps
      are references, so storing into the innermost map updates `fileMap`; here
      the updated maps are written back. */
  method VisitFile(g: Generator, fileMap: FileMap, dir: string, name: string) returns (r: FileMap)
    ensures r == Record(g, fileMap, dir, name)
  {
    var base := BaseName(name);
    var inner: map<string, map<string, string>> := map[];
    if dir in fileMap {
      inner := fileMap[dir];
    }
    var files: map<string, string> := map[];
    if base in inner {
      files := inner[base];
    }
    match KindOf(g, name) {
      case Some(k) => files := files[k := name];
      case None =>
    }
    r := fileMap[dir := inner[base := files]];
  }

  /** Once the walk has failed, later entries change nothing. */
  lemma {:induction false} ScanErrorPersists(g: Generator, entries: seq<WalkEntry>, j: nat)
    requires j <= |entries| && Scan(g, entries[..j]).Err?
    ensures Scan(g, entries) == Scan(g, entries[..j])
    decreases |entries| - j
  {
    if j < |entries| {
      var init := entries[..|entries| - 1];
      assert init[..j] == entries[..j];
      ScanErrorPersists(g, init, j);
      assert entries[..|entries|] == entries;
    } else {
      assert entries[..j] == entries;
    }
  }

  /** The scan fails exactly when the walk reports a failure. */
  lemma {:induction false} ScanFailsIff(g: Generator, entries: seq<WalkEntry>)
    ensures Scan(g, entries).Err? <==> exists i :: 0 <= i < |entries| && entries[i].WalkFailure?
    decreases |entries|
  {
    if |entries| > 0 {
      var init := entries[..|entries| - 1];
      ScanFailsIff(g, init);
      assert forall i :: 0 <= i < |init| ==> init[i] == entries[i];
      if Scan(g, entries).Err? && !Scan(g, init).Err? {
        assert entries[|entries| - 1].WalkFailure?;
      }
      if (exists i :: 0 <= i < |entries| && entries[i].WalkFailure?) && !entries[|entries| - 1].WalkFailure? {
        var i :| 0 <= i < |entries| && entries[i].WalkFailure?;
        assert init[i].WalkFailure?;
      }
    }
  }

  /** Every file the walk visits leaves an entry for its directory and its base
      name, whatever its kind. */
  lemma {:induction false} ScanKeepsEveryFile(g: Generator, entries: seq<WalkEntry>)
    requires Scan(g, entries).Ok?
    ensures forall i :: 0 <= i < |entries| && entries[i].FileAt? ==>
      entries[i].dir in Scan(g, entries).value && BaseName(entries[i].name) in Scan(g, entries).value[entries[i].dir]
    decreases |entries|
  {
    if |entries| > 0 {
      var init := entries[..|entries| - 1];
      ScanKeepsEveryFile(g, init);
      var prev := Scan(g, init).value;
      var fm := Scan(g, entries).value;
      var last := entries[|entries| - 1];
      if last.FileAt? {
        assert fm == Record(g, prev, last.dir, last.name);
        RecordStores(g, prev, last.dir, last.name);
      } else {
        assert fm == prev;
      }
      forall i | 0 <= i < |entries| && entries[i].FileAt?
        ensures entries[i].dir in fm && BaseName(entries[i].name) in fm[entries[i].dir]
      {
        if i < |init| {
          assert init[i] == entries[i];
        }
      }
    }
  }

  /** The file recorded under a kind is the last one of that kind, directory
      and base name in walk order. */
  lemma {:induction false} LastFileWins(g: Generator, entries: seq<WalkEntry>, i: nat, k: string)
    requires Scan(g, entries).Ok?
    requires i < |entries| && entries[i].FileAt? && KindOf(g, entries[i].name) == Some(k)
    requires forall j :: (i < j < |entries| && entries[j].FileAt? && entries[j].dir == entries[i].dir
                          && BaseName(entries[j].name) == BaseName(entries[i].name))
                         ==> KindOf(g, entries[j].name) != Some(k)
    ensures var fm := Scan(g, entries).value;
      var d := entries[i].dir;
      var b := BaseName(entries[i].name);
      d in fm && b in fm[d] && k in fm[d][b] && fm[d][b][k] == entries[i].name
    decreases |entries|
  {
    var init := entries[..|entries| - 1];
    assert Scan(g, init).Ok?;
    var prev := Scan(g, init).value;
    var last := entries[|entries| - 1];
    if i < |entries| - 1 {
      assert forall j :: 0 <= j < |init| ==> init[j] == entries[j];
      LastFileWins(g, init, i, k);
    }
    if last.FileAt? {
      assert Scan(g, entries).value == Record(g, prev, last.dir, last.name);
      RecordStores(g, prev, last.dir, last.name);
    } else {
      assert Scan(g, entries).value == prev;
    }
  }

  /** Every recorded file comes from the walk: it was visited in that directory,
      it has that base name, and it is of that kind. */
  lemma {:induction false} RecordedFilesWereVisited(g: Generator, entries: seq<WalkEntry>, d: string, b: string, k: string)
    requires Scan(g, entries).Ok?
    requires d in Scan(g, entries).value && b in Scan(g, entries).value[d] && k in Scan(g, entries).value[d][b]
    ensures var n := Scan(g, entries).value[d][b][k];
      exists i :: 0 <= i < |entries| && entries[i] == FileAt(d, n) && BaseName(n) == b && KindOf(g, n) == Some(k)
    decreases |entries|
  {
    var init := entries[..|entries| - 1];
    var fm := Scan(g, entries).value;
    var n := fm[d][b][k];
    var last := entries[|entries| - 1];
    if last.FileAt? && last.dir == d && BaseName(last.name) == b && KindOf(g, last.name) == Some(k) {
      assert entries[|entries| - 1] == FileAt(d, n);
    } else {
      RecordedFilesWereVisited(g, init, d, b, k);
      var i :| 0 <= i < |init| && init[i] == FileAt(d, n) && BaseName(n) == b && KindOf(g, n) == Some(k);
      assert entries[i] == init[i];
    }
  }

  /** The scan of a video followed by its audio track written `clip_audio.MP4`:
      as written, the track replaces the video and no audio is recorded. */
  lemma AudioTrackTakenForVideo()
    ensures Scan(AsWritten, [FileAt("d", "clip.mp4"), FileAt("d", "clip_audio.MP4")])
            == Ok(map["d" := map["clip" := map[VideoKind := "clip_audio.MP4"]]])
  {
    KindAsWrittenMistakesAudio();
    ClipKinds();
    ScanOfPair(AsWritten, "d", "clip", "clip.mp4", VideoKind, "clip_audio.MP4", VideoKind);
    assert map[VideoKind := "clip.mp4"][VideoKind := "clip_audio.MP4"] == map[VideoKind := "clip_audio.MP4"];
  }

  /** The corrected scan of the same walk files each file under its own kind. */
  lemma AudioTrackKeptApart()
    ensures Scan(Corrected, [FileAt("d", "clip.mp4"), FileAt("d", "clip_audio.MP4")])
            == Ok(map["d" := map["clip" := map[VideoKind := "clip.mp4", AudioKind := "clip_audio.MP4"]]])
  {
    ClipKinds();
    ClipBaseNames();
    ScanOfPair(Corrected, "d", "clip", "clip.mp4", VideoKind, "clip_audio.MP4", AudioKind);
  }

  /** Two files of one base name, each of a known kind, walked in turn. */
  lemma ScanOfPair(g: Generator, d: string, b: string, n1: string, k1: string, n2: string, k2: string)
    requires BaseName(n1) == b && BaseName(n2) == b
    requires KindOf(g, n1) == Some(k1) && KindOf(g, n2) == Some(k2)
    ensures Scan(g, [FileAt(d, n1), FileAt(d, n2)]) == Ok(map[d := map[b := map[k1 := n1][k2 := n2]]])
  {
    var first := map[d := map[b := map[k1 := n1]]];
    assert Scan(g, [FileAt(d, n1), FileAt(d, n2)]) == Ok(Record(g, Record(g, map[], d, n1), d, n2)) by {
      ScanOfTwo(g, d, n1, n2);
    }
    assert Record(g, map[], d, n1) == first by {
      RecordIntoEmpty(g, d, b, n1, k1);
    }
    assert Record(g, first, d, n2) == map[d := map[b := map[k1 := n1][k2 := n2]]] by {
      RecordOntoBase(g, first, d, b, n2, k2);
      OverwriteSingletons(d, b, map[k1 := n1], map[k1 := n1][k2 := n2]);
    }
  }

  /** Overwriting the one entry of nested one-entry maps. */
  lemma OverwriteSingletons(d: string, b: string, old1: map<string, string>, new1: map<string, string>)
    ensures var m := map[d := map[b := old1]];
      m[d := m[d][b := new1]] == map[d := map[b := new1]]
  {
    var m := map[d := map[b := old1]];
    assert m[d][b := new1] == map[b := new1];
  }

  /** A file recorded into an empty map. */
  lemma RecordIntoEmpty(g: Generator, d: string, b: string, n: string, k: string)
    requires BaseName(n) == b && KindOf(g, n) == Some(k)
    ensures Record(g, map[], d, n) == map[d := map[b := map[k := n]]]
  {
  }

  lemma ScanOfTwo(g: Generator, d: string, n1: string, n2: string)
    ensures Scan(g, [FileAt(d, n1), FileAt(d, n2)]) == Ok(Record(g, Record(g, map[], d, n1), d, n2))
  {
    var entries := [FileAt(d, n1), FileAt(d, n2)];
    assert entries[..1] == [FileAt(d, n1)] && entries[..1][..0] == [];
    assert Scan(g, entries[..1][..0]) == Ok(map[]);
    assert Scan(g, entries[..1]) == Ok(Record(g, map[], d, n1));
  }

  /** A file recorded under a base name its directory already has. */
  lemma RecordOntoBase(g: Generator, fm: FileMap, d: string, b: string, n: string, k: string)
    requires d in fm && b in fm[d] && BaseName(n) == b && KindOf(g, n) == Some(k)
    ensures Record(g, fm, d, n) == fm[d := fm[d][b := fm[d][b][k := n]]]
  {
  }
}
