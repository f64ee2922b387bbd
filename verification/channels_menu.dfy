/** The menu-building part of `main` in the channel-menu generator: a channels
    screen listing every scanned directory, and one screen per directory listing
    the base names that have a video. Go ranges over its maps in an unspecified
    order, drawn afresh for every `range` statement; here each of those orders
    is a parameter of its own, any enumeration of the keys. */
module ChannelsMenu {
  import opened Text
  import opened ChannelsNames
  import opened ChannelsScan

  /** A menu item as the generator builds it; an empty string stands for an
      absent optional field. */
  datatype GoItem = GoItem(text: string, action: string, target: string,
                           video: string, audio: string, subtitles: string)

  datatype GoScreen = GoScreen(key: string, header: string, items: seq<GoItem>)

  function NavItem(text: string, target: string): GoItem {
    GoItem(text, "navigate", target, "", "", "")
  }

  /** The file of a kind, or "" when there is none. */
  function Lookup(files: map<string, string>, kind: string): string {
    if kind in files then files[kind] else ""
  }

  /** The play item of a base name that has a video, with its audio track and
      subtitles when it has them. */
  function PlayItem(base: string, files: map<string, string>): GoItem
    requires VideoKind in files
  {
    GoItem(base, "play", "", files[VideoKind], Lookup(files, AudioKind), Lookup(files, SubtitlesKind))
  }

  /** `order` lists the elements of `keys`, each once. */
  predicate Enumerates(order: seq<string>, keys: set<string>) {
    (forall i, j :: 0 <= i < j < |order| ==> order[i] != order[j])
    && (forall i :: 0 <= i < |order| ==> order[i] in keys)
    && (forall k :: k in keys ==> k in order)
  }

  /** Every directory in `dirs` was scanned, and `bases` gives the order of its
      base names. */
  predicate Ordered(fm: FileMap, dirs: seq<string>, bases: map<string, seq<string>>) {
    forall i :: 0 <= i < |dirs| ==> dirs[i] in fm && dirs[i] in bases && Enumerates(bases[dirs[i]], fm[dirs[i]].Keys)
  }

  // ---------------------------------------------------------------------------
  // The menu the generator builds
  // ---------------------------------------------------------------------------

  /** The channels screen's items before BACK: one per directory, labelled with
      its upper-cased name. */
  function DirItems(dirs: seq<string>): (items: seq<GoItem>)
    ensures |items| == |dirs|
    ensures forall i :: 0 <= i < |dirs| ==> items[i] == NavItem(ToUpper(dirs[i]), dirs[i])
  {
    seq(|dirs|, i requires 0 <= i < |dirs| => NavItem(ToUpper(dirs[i]), dirs[i]))
  }

  const ChannelsTitle := "------- CHANNELS -------"

  function ChannelsScreen(dirs: seq<string>): GoScreen {
    GoScreen("channels", ChannelsTitle, DirItems(dirs) + [NavItem("BACK", "main")])
  }

  /** A directory screen's items before BACK: the play items of the base names
      that have a video, in the given order. */
  function PlayItems(content: map<string, map<string, string>>, bases: seq<string>): seq<GoItem>
    requires forall i :: 0 <= i < |bases| ==> bases[i] in content
    decreases |bases|
  {
    if |bases| == 0 then []
    else
      var b := bases[|bases| - 1];
      PlayItems(content, bases[..|bases| - 1])
        + (if VideoKind in content[b] then [PlayItem(b, content[b])] else [])
  }

  /** The screen of directory `d`, or the panic of its header. */
  function DirScreen(d: string, content: map<string, map<string, string>>, bases: seq<string>)
    : Result<GoScreen, string>
    requires forall i :: 0 <= i < |bases| ==> bases[i] in content
  {
    match FormatHeader(d)
    case Err(e) => Err(e)
    case Ok(h) => Ok(GoScreen(d, h, PlayItems(content, bases) + [NavItem("BACK", "channels")]))
  }

  /** The directory screens in the order of `dirs`; the first header that
      panics stops the program. */
  function DirScreens(fm: FileMap, dirs: seq<string>, bases: map<string, seq<string>>)
    : Result<seq<GoScreen>, string>
    requires Ordered(fm, dirs, bases)
    decreases |dirs|
  {
    if |dirs| == 0 then Ok([])
    else
      var prev := DirScreens(fm, dirs[..|dirs| - 1], bases);
      var d := dirs[|dirs| - 1];
      assert Enumerates(bases[d], fm[d].Keys);
      if prev.Err? then prev
      else match DirScreen(d, fm[d], bases[d])
        case Err(e) => Err(e)
        case Ok(s) => Ok(prev.value + [s])
  }

  /** The menu: the channels screen listing the directories in the order
      `listed`, then the directory screens in the order `dirs`. */
  function MenuOf(fm: FileMap, listed: seq<string>, dirs: seq<string>, bases: map<string, seq<string>>)
    : Result<seq<GoScreen>, string>
    requires Ordered(fm, dirs, bases)
  {
    match DirScreens(fm, dirs, bases)
    case Err(e) => Err(e)
    case Ok(ss) => Ok([ChannelsScreen(listed)] + ss)
  }

  /** The menu part of `main`: the channels screen is filled first, then one
      screen per directory, each ending in BACK. The orders in which Go ranges
      over the maps are given by `listed` (the first `range fileMap`), `dirs`
      (the second) and `bases` (the `range dirContent` of each directory). */
  method BuildMenu(fileMap: FileMap, listed: seq<string>, dirs: seq<string>, bases: map<string, seq<string>>)
    returns (r: Result<seq<GoScreen>, string>)
    requires Enumerates(listed, fileMap.Keys) && Enumerates(dirs, fileMap.Keys)
    requires forall d :: d in fileMap ==> d in bases && Enumerates(bases[d], fileMap[d].Keys)
    ensures r == MenuOf(fileMap, listed, dirs, bases)
  {
    var channels := BuildChannelsScreen(listed);
    var m := [channels];
    assert m[1..] == [] && dirs[..0] == [];
    assert Ordered(fileMap, dirs, bases);
    for i := 0 to |dirs|
      invariant |m| >= 1 && m[0] == ChannelsScreen(listed)
      invariant DirScreens(fileMap, dirs[..i], bases) == Ok(m[1..])
    {
      var d := dirs[i];
      assert dirs[..i + 1][..i] == dirs[..i];
      var header := FormatHeader(d);
      if header.Err? {
        r := Err(header.error);
        assert DirScreen(d, fileMap[d], bases[d]) == Err(header.error);
        assert DirScreens(fileMap, dirs[..i + 1], bases) == Err(header.error);
        DirScreensErrorPersists(fileMap, dirs, bases, i + 1);
        return;
      }
      var s := BuildDirScreen(d, header.value, fileMap[d], bases[d]);
      assert DirScreen(d, fileMap[d], bases[d]) == Ok(s);
      assert (m + [s])[1..] == m[1..] + [s];
      m := m + [s];
    }
    assert dirs[..|dirs|] == dirs;
    assert m == [m[0]] + m[1..];
    r := Ok(m);
  }

  /** The channels screen: a navigate item per directory, then BACK to the main
      screen. */
  method BuildChannelsScreen(dirs: seq<string>) returns (s: GoScreen)
    ensures s == ChannelsScreen(dirs)
  {
    ChannelsHeader();
    s := GoScreen("channels", FormatHeader("channels").value, []);
    for i := 0 to |dirs|
      invariant s == GoScreen("channels", ChannelsTitle, DirItems(dirs[..i]))
    {
      s := s.(items := s.items + [NavItem(ToUpper(dirs[i]), dirs[i])]);
    }
    assert dirs[..|dirs|] == dirs;
    s := s.(items := s.items + [NavItem("BACK", "main")]);
  }

  /** One directory's screen: a play item per base name with a video, its audio
      and subtitles attached when present, then BACK to the channels screen. */
  method BuildDirScreen(d: string, header: string, content: map<string, map<string, string>>, order: seq<string>)
    returns (s: GoScreen)
    requires forall i :: 0 <= i < |order| ==> order[i] in content
    ensures s == GoScreen(d, header, PlayItems(content, order) + [NavItem("BACK", "channels")])
  {
    s := GoScreen(d, header, []);
    for j := 0 to |order|
      invariant s == GoScreen(d, header, PlayItems(content, order[..j]))
    {
      assert order[..j + 1][..j] == order[..j];
      var b := order[j];
      var files := content[b];
      if VideoKind in files {
        var item := GoItem(b, "play", "", files[VideoKind], "", "");
        if AudioKind in files {
          item := item.(audio := files[AudioKind]);
        }
        if SubtitlesKind in files {
          item := item.(subtitles := files[SubtitlesKind]);
        }
        s := s.(items := s.items + [item]);
      }
    }
    assert order[..|order|] == order;
    s := s.(items := s.items + [NavItem("BACK", "channels")]);
  }

  /** Once a header has panicked, later directories change nothing. */
  lemma {:induction false} DirScreensErrorPersists(fm: FileMap, dirs: seq<string>, bases: map<string, seq<string>>, j: nat)
    requires Ordered(fm, dirs, bases)
    requires j <= |dirs| && DirScreens(fm, dirs[..j], bases).Err?
    ensures DirScreens(fm, dirs, bases) == DirScreens(fm, dirs[..j], bases)
    decreases |dirs| - j
  {
    if j < |dirs| {
      var init := dirs[..|dirs| - 1];
      assert init[..j] == dirs[..j];
      DirScreensErrorPersists(fm, init, bases, j);
    } else {
      assert dirs[..j] == dirs;
    }
  }

  // ---------------------------------------------------------------------------
  // What the menu contains
  // ---------------------------------------------------------------------------

  /** Building fails exactly when some directory name is 24 bytes or longer. */
  lemma {:induction false} DirScreensFailIff(fm: FileMap, dirs: seq<string>, bases: map<string, seq<string>>)
    requires Ordered(fm, dirs, bases)
    ensures DirScreens(fm, dirs, bases).Err? <==> exists i :: 0 <= i < |dirs| && Utf8Len(dirs[i]) >= 24
    ensures DirScreens(fm, dirs, bases).Ok? ==> |DirScreens(fm, dirs, bases).value| == |dirs|
    decreases |dirs|
  {
    if |dirs| > 0 {
      var init := dirs[..|dirs| - 1];
      DirScreensFailIff(fm, init, bases);
      assert forall i :: 0 <= i < |init| ==> init[i] == dirs[i];
      if exists i :: 0 <= i < |dirs| && Utf8Len(dirs[i]) >= 24 {
        var i :| 0 <= i < |dirs| && Utf8Len(dirs[i]) >= 24;
        if i < |init| {
          assert Utf8Len(init[i]) >= 24;
        }
      }
    }
  }

  /** In a built menu, screen `i + 1` belongs to `dirs[i]`: its key is the
      directory name, its header the formatted name, and its items the play
      items of the directory's videos, then BACK to the channels screen. */
  lemma {:induction false} DirScreensAt(fm: FileMap, dirs: seq<string>, bases: map<string, seq<string>>)
    requires Ordered(fm, dirs, bases)
    requires DirScreens(fm, dirs, bases).Ok?
    ensures var ss := DirScreens(fm, dirs, bases).value;
      |ss| == |dirs|
      && forall i :: 0 <= i < |dirs| ==>
           FormatHeader(dirs[i]).Ok?
           && ss[i] == GoScreen(dirs[i], FormatHeader(dirs[i]).value,
                                PlayItems(fm[dirs[i]], bases[dirs[i]]) + [NavItem("BACK", "channels")])
    decreases |dirs|
  {
    if |dirs| > 0 {
      var init := dirs[..|dirs| - 1];
      DirScreensAt(fm, init, bases);
      assert forall i :: 0 <= i < |init| ==> init[i] == dirs[i];
    }
  }

  /** The channels screen lists each directory exactly once, then BACK to the
      main screen, last. */
  lemma ChannelsListEachDirOnce(fm: FileMap, dirs: seq<string>)
    requires Enumerates(dirs, fm.Keys)
    ensures var items := ChannelsScreen(dirs).items;
      |items| == |dirs| + 1 && items[|dirs|] == NavItem("BACK", "main")
      && (forall d :: d in fm ==> exists i :: 0 <= i < |dirs| && items[i] == NavItem(ToUpper(d), d))
      && (forall i, j :: 0 <= i < |dirs| && 0 <= j < |dirs| && items[i].target == items[j].target ==> i == j)
      && (forall i :: 0 <= i < |dirs| ==> items[i].action == "navigate" && items[i].target in fm)
  {
    var items := ChannelsScreen(dirs).items;
    forall d | d in fm ensures exists i :: 0 <= i < |dirs| && items[i] == NavItem(ToUpper(d), d) {
      var i :| 0 <= i < |dirs| && dirs[i] == d;
      assert items[i] == NavItem(ToUpper(d), d);
    }
  }

  /** Whatever the two orders of the `range fileMap` loops, every directory the
      channels screen lists has its own screen in the menu, and every
      directory screen is listed there. */
  lemma ListedDirsHaveScreens(fm: FileMap, listed: seq<string>, dirs: seq<string>, bases: map<string, seq<string>>,
                               menu: seq<GoScreen>)
    requires Enumerates(listed, fm.Keys) && Enumerates(dirs, fm.Keys) && Ordered(fm, dirs, bases)
    requires MenuOf(fm, listed, dirs, bases) == Ok(menu)
    ensures |menu| == |listed| + 1
    ensures forall i :: 0 <= i < |listed| ==>
              exists j :: 1 <= j < |menu| && menu[j].key == menu[0].items[i].target
    ensures forall j :: 1 <= j < |menu| ==>
              exists i :: 0 <= i < |listed| && menu[0].items[i].target == menu[j].key
  {
    assert |menu| == |listed| + 1 && |menu[0].items| > |listed| && |dirs| == |listed|
      && (forall i :: 0 <= i < |listed| ==> menu[0].items[i].target == listed[i])
      && (forall j :: 1 <= j < |menu| ==> menu[j].key == dirs[j - 1]) by {
      SameKeysSameLength(listed, dirs, fm.Keys);
      MenuKeys(fm, listed, dirs, bases);
      ChannelsTargets(listed);
    }
    ListedMatchesKeyed(menu, listed, dirs, fm.Keys);
  }

  /** After the channels screen come the directory screens, keyed in the order
      of the second loop. */
  lemma MenuKeys(fm: FileMap, listed: seq<string>, dirs: seq<string>, bases: map<string, seq<string>>)
    requires Ordered(fm, dirs, bases) && MenuOf(fm, listed, dirs, bases).Ok?
    ensures var menu := MenuOf(fm, listed, dirs, bases).value;
      |menu| == |dirs| + 1 && menu[0] == ChannelsScreen(listed)
      && forall j :: 1 <= j < |menu| ==> menu[j].key == dirs[j - 1]
  {
    var ss := DirScreens(fm, dirs, bases).value;
    DirScreenKeys(fm, dirs, bases);
    var menu := [ChannelsScreen(listed)] + ss;
    assert MenuOf(fm, listed, dirs, bases).value == menu;
    forall j | 1 <= j < |menu| ensures menu[j].key == dirs[j - 1] {
      assert menu[j] == ss[j - 1];
    }
  }

  /** The channels screen's first items target the directories in the order of
      the first loop. */
  lemma ChannelsTargets(listed: seq<string>)
    ensures |ChannelsScreen(listed).items| == |listed| + 1
    ensures forall i :: 0 <= i < |listed| ==> ChannelsScreen(listed).items[i].target == listed[i]
  {
    var items := ChannelsScreen(listed).items;
    assert items == DirItems(listed) + [NavItem("BACK", "main")];
    forall i | 0 <= i < |listed| ensures items[i].target == listed[i] {
      assert items[i] == DirItems(listed)[i];
    }
  }

  /** A channels screen whose first items target `listed`, followed by screens
      keyed by `dirs`, where both enumerate the same directories: the targets
      and the keys match both ways. */
  lemma ListedMatchesKeyed(menu: seq<GoScreen>, listed: seq<string>, dirs: seq<string>, keys: set<string>)
    requires Enumerates(listed, keys) && Enumerates(dirs, keys) && |dirs| == |listed|
    requires |menu| == |listed| + 1 && |menu[0].items| > |listed|
    requires forall i :: 0 <= i < |listed| ==> menu[0].items[i].target == listed[i]
    requires forall j :: 1 <= j < |menu| ==> menu[j].key == dirs[j - 1]
    ensures forall i :: 0 <= i < |listed| ==>
              exists j :: 1 <= j < |menu| && menu[j].key == menu[0].items[i].target
    ensures forall j :: 1 <= j < |menu| ==>
              exists i :: 0 <= i < |listed| && menu[0].items[i].target == menu[j].key
  {
    forall i | 0 <= i < |listed|
      ensures exists j :: 1 <= j < |menu| && menu[j].key == menu[0].items[i].target
    {
      var j := KeyedAt(menu, dirs, listed[i]);
      assert menu[0].items[i].target == listed[i];
    }
    forall j | 1 <= j < |menu|
      ensures exists i :: 0 <= i < |listed| && menu[0].items[i].target == menu[j].key
    {
      var i := ListedAt(menu, listed, dirs[j - 1]);
      assert menu[j].key == dirs[j - 1];
    }
  }

  /** A directory of `dirs` is the key of the screen after its position. */
  lemma KeyedAt(menu: seq<GoScreen>, dirs: seq<string>, d: string) returns (j: nat)
    requires d in dirs && |menu| == |dirs| + 1
    requires forall j :: 1 <= j < |menu| ==> menu[j].key == dirs[j - 1]
    ensures 1 <= j < |menu| && menu[j].key == d
  {
    var k :| 0 <= k < |dirs| && dirs[k] == d;
    j := k + 1;
  }

  /** A directory of `listed` is the target of the channels item at its
      position. */
  lemma ListedAt(menu: seq<GoScreen>, listed: seq<string>, d: string) returns (i: nat)
    requires d in listed && |menu| >= 1 && |menu[0].items| > |listed|
    requires forall i :: 0 <= i < |listed| ==> menu[0].items[i].target == listed[i]
    ensures 0 <= i < |listed| && menu[0].items[i].target == d
  {
    i :| 0 <= i < |listed| && listed[i] == d;
  }

  /** Directory screen `i` is keyed by `dirs[i]`. */
  lemma DirScreenKeys(fm: FileMap, dirs: seq<string>, bases: map<string, seq<string>>)
    requires Ordered(fm, dirs, bases)
    requires DirScreens(fm, dirs, bases).Ok?
    ensures var ss := DirScreens(fm, dirs, bases).value;
      |ss| == |dirs| && forall i :: 0 <= i < |dirs| ==> ss[i].key == dirs[i]
  {
    DirScreensAt(fm, dirs, bases);
  }

  /** Two enumerations of the same keys have the same length. */
  lemma SameKeysSameLength(a: seq<string>, b: seq<string>, keys: set<string>)
    requires Enumerates(a, keys) && Enumerates(b, keys)
    ensures |a| == |keys| == |b|
  {
    EnumerationLength(a, keys);
    EnumerationLength(b, keys);
  }

  lemma {:induction false} EnumerationLength(a: seq<string>, keys: set<string>)
    requires Enumerates(a, keys)
    ensures |a| == |keys|
    decreases |a|
  {
    if |a| > 0 {
      var init := a[..|a| - 1];
      var last := a[|a| - 1];
      assert Enumerates(init, keys - {last}) by {
        forall k | k in keys - {last} ensures k in init {
          var i :| 0 <= i < |a| && a[i] == k;
          assert i < |a| - 1;
          assert init[i] == k;
        }
      }
      EnumerationLength(init, keys - {last});
    } else {
      assert forall k :: k in keys ==> k in a;
      assert keys == {};
    }
  }

  /** Every item of a directory screen before BACK is the play item of one of
      its base names that has a video. */
  lemma {:induction false} PlayItemsHaveVideos(content: map<string, map<string, string>>, bases: seq<string>)
    requires forall i :: 0 <= i < |bases| ==> bases[i] in content
    ensures forall j :: 0 <= j < |PlayItems(content, bases)| ==>
      PlayItems(content, bases)[j].text in bases
      && VideoKind in content[PlayItems(content, bases)[j].text]
      && PlayItems(content, bases)[j] == PlayItem(PlayItems(content, bases)[j].text, content[PlayItems(content, bases)[j].text])
    decreases |bases|
  {
    if |bases| > 0 {
      var init := bases[..|bases| - 1];
      PlayItemsHaveVideos(content, init);
      assert forall b :: b in init ==> b in bases;
    }
  }

  /** A base name has a play item exactly when it has a video. */
  lemma {:induction false} PlayItemsCoverVideos(content: map<string, map<string, string>>, bases: seq<string>, b: string)
    requires forall i :: 0 <= i < |bases| ==> bases[i] in content
    requires b in bases
    ensures VideoKind in content[b] <==> exists j :: 0 <= j < |PlayItems(content, bases)| && PlayItems(content, bases)[j].text == b
    decreases |bases|
  {
    PlayItemsHaveVideos(content, bases);
    var init := bases[..|bases| - 1];
    var last := bases[|bases| - 1];
    assert PlayItems(content, bases)
      == PlayItems(content, init) + (if VideoKind in content[last] then [PlayItem(last, content[last])] else []);
    if b in init {
      PlayItemsCoverVideos(content, init, b);
      if VideoKind in content[b] {
        var j :| 0 <= j < |PlayItems(content, init)| && PlayItems(content, init)[j].text == b;
        assert PlayItems(content, bases)[j].text == b;
      }
    } else {
      assert b == last;
      if VideoKind in content[b] {
        assert PlayItems(content, bases)[|PlayItems(content, init)|].text == b;
      }
    }
  }

  /** Distinct base names give play items with distinct labels: one item per
      video. */
  lemma {:induction false} PlayItemsOnce(content: map<string, map<string, string>>, bases: seq<string>)
    requires forall i :: 0 <= i < |bases| ==> bases[i] in content
    requires forall i, j :: 0 <= i < j < |bases| ==> bases[i] != bases[j]
    ensures forall j, k :: 0 <= j < k < |PlayItems(content, bases)| ==>
      PlayItems(content, bases)[j].text != PlayItems(content, bases)[k].text
    decreases |bases|
  {
    if |bases| > 0 {
      var init := bases[..|bases| - 1];
      var last := bases[|bases| - 1];
      PlayItemsOnce(content, init);
      PlayItemsHaveVideos(content, init);
      assert last !in init;
    }
  }
}
