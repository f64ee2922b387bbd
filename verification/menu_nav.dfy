/** The menu of both front ends as one object: the screens in `for…in` key order, the
    screen shown, the selection, the saved selections, the URL hash, the stored
    preferences and the shader state, changed by the keydown handler, the item
    actions, the hash-path parser, the channel insertions, `updateMenuPath` and
    `loadPreferences`. The two `menu.js` modules differ only where `variant` says. */
module MenuNav {
  import opened Text
  import opened MenuModel

  /** What the handlers ask of the rest of the player. */
  datatype Effect =
    | FullscreenRequest(enter: bool)            // toggleFullScreen: enter or leave
    | ShaderToggled(on: bool)                   // window.toggleVHSShader(on)
    | ExitVideo
    | PlayVideo(path: string, title: string, fromUrl: bool)
    | VideoControl(key: string, shift: bool)    // volume or seek while a video plays
    | PlayLater(menu: string, index: nat)       // the 100 ms timer of parseUrlAndNavigate
    | ReplaceUrl(url: string)                   // history.replaceState
    | UriError                                  // decodeURIComponent threw out of parseUrlAndNavigate

  /** The localStorage key of the shader preference. */
  const ShadersKey := "shadersEnabled"

  /** A video given to `addChannelToMenu`, or found in a dropped folder. */
  datatype Video = Video(name: string, path: string)

  /** The screens both modules start with; the older one also lists the generated
      cartoon channel. `fullscreenNow` is `document.fullscreenElement` at load. */
  function InitialScreens(variant: Variant, fullscreenNow: bool): (m: map<string, Screen>)
    ensures "main" in m && "options" in m && "info" in m && "channels" in m
  {
    var back := Item("BACK", Navigate("main"));
    var base := map[
      "main" := Screen("--------- MENU ---------", [
        Item("CHANNEL LIST", Navigate("channels")),
        Item("OPTIONS", Navigate("options")),
        Item("INFO", Navigate("info"))]),
      "options" := Screen("------- OPTIONS --------", [
        Item("SHADERS: ON", Toggle(["SHADERS: ON", "SHADERS: OFF"], ShaderSwitch)),
        Item("FULLSCREEN: " + (if fullscreenNow then "ON" else "OFF"),
             Toggle(["FULLSCREEN: ON", "FULLSCREEN: OFF"], FullscreenSwitch)),
        back]),
      "info" := Screen("--------- INFO ---------", [
        Item("NOSTALGIA PLAYER", Inert),
        Item("VERSION: 1.0", Inert),
        Item("FONT - HOME VIDEO 0.8", Inert),
        back])];
    match variant
    case Renderer => base["channels" := Screen("------- CHANNELS -------", [back])]
    case Legacy =>
      base["channels" := Screen("------- CHANNELS -------", [Item("CARTOONS", Navigate("cartoons")), back])]
          ["cartoons" := Screen("------- CARTOONS -------", [
            Item("Аладдин", Play("Аладдин.mp4")),
            Item("Команда Гуфи", Play("Команда Гуфи.mp4")),
            Item("Чёрный плащ", Play("Чёрный плащ.mp4")),
            Item("А может", Play("А может.mp4")),
            Item("BACK", Navigate("channels"))])]
  }

  /** The keys of the initial screens in `for…in` order: none is an array index,
      so it is the order of the object literal. */
  function InitialKeys(variant: Variant): seq<string> {
    match variant
    case Renderer => ["main", "options", "info", "channels"]
    case Legacy => ["main", "options", "info", "channels", "cartoons"]
  }

  class Menus {
    const variant: Variant
    /** `encodeURIComponent`, and `decodeURIComponent`, which throws a
        URIError (`None`) on a malformed percent-encoding. */
    const encode: string -> string
    const decode: string -> Option<string>
    /** What `location.hash` reads after `history.replaceState(null, "", url)`:
        the browser percent-encodes some characters of the fragment (spaces and
        non-ASCII letters among them) and reads an empty fragment as "". */
    const hashAfter: string -> string

    /** `menuStructure`: its keys in the order `for…in` visits them, and the
        screen of each. */
    var keys: seq<string>
    var screens: map<string, Screen>
    var currentMenu: string
    var selectedIndex: int
    var menuHistory: map<string, int>
    /** The body carries the class "shader-enabled". */
    var shaderEnabled: bool
    var storage: map<string, string>
    /** `window.location.hash`, "" when there is none. */
    var hash: string
    var effects: seq<Effect>

    /** The fields hold a `Consistent` menu state. */
    ghost predicate Valid()
      reads this
    {
      Consistent(keys, screens, currentMenu, selectedIndex, menuHistory)
    }

    /** The selection state as one value. */
    function Nav(): Nav
      reads this
    {
      MenuModel.Nav(currentMenu, selectedIndex, menuHistory)
    }

    /** The SHADERS item of the options screen, when there is one, shows the shader
        state. */
    ghost predicate ShaderLabelInSync()
      reads this
      requires "options" in screens
    {
      var k := FindIndex(screens["options"].items, StatesInclude("SHADERS: ON"));
      k >= 0 ==> (screens["options"].items[k].text == "SHADERS: ON") == shaderEnabled
    }

    /** What `updateMenuPath(video)` leaves: the URL is rewritten with the path
        computed for the screen shown only when the hash differed from that path,
        and the hash then reads as the browser stores that URL. When the
        parent walk does not stop nothing is written. */
    ghost predicate PathWritten(oldHash: string, oldEffects: seq<Effect>, video: string)
      reads this
      requires KeysNamed(keys, screens)
    {
      match MenuUrl(keys, screens, currentMenu, video, encode)
      case None => hash == oldHash && effects == oldEffects
      case Some(p) =>
        var u := HashUpdate(oldHash, p, hashAfter);
        hash == u.0 && effects == oldEffects + u.1
    }

    constructor(variant: Variant, encode: string -> string, decode: string -> Option<string>,
                hashAfter: string -> string, fullscreenNow: bool, shaderEnabled: bool,
                storage: map<string, string>, hash: string)
      ensures Valid()
      ensures this.variant == variant && this.encode == encode && this.decode == decode
      ensures this.hashAfter == hashAfter
      ensures keys == InitialKeys(variant) && screens == InitialScreens(variant, fullscreenNow)
      ensures InKeyOrder(keys)
      ensures currentMenu == "main" && selectedIndex == 0 && menuHistory == map[]
      ensures this.shaderEnabled == shaderEnabled && this.storage == storage && this.hash == hash
      ensures effects == []
    {
      InitialConsistent(variant, fullscreenNow);
      InitialKeysInOrder(variant);
      this.variant := variant;
      this.encode := encode;
      this.decode := decode;
      this.hashAfter := hashAfter;
      keys := InitialKeys(variant);
      screens := InitialScreens(variant, fullscreenNow);
      currentMenu := "main";
      selectedIndex := 0;
      menuHistory := map[];
      this.shaderEnabled := shaderEnabled;
      this.storage := storage;
      this.hash := hash;
      effects := [];
    }

    // -------------------------------------------------------------------------
    // utils.js: updateMenuPath
    // -------------------------------------------------------------------------

    /** The `for (const key in menuStructure)` loop: the position of the first
        screen with an item targeting `m`, or -1. */
    method FindParent(m: string) returns (p: int)
      requires KeysNamed(keys, screens)
      ensures p == ParentIndex(keys, screens, m, 0)
    {
      for i := 0 to |keys|
        invariant ParentIndex(keys, screens, m, 0) == ParentIndex(keys, screens, m, i)
      {
        if FindIndex(screens[keys[i]].items, TargetOf(m)) >= 0 {
          return i;
        }
      }
      return -1;
    }

    /** The `while (targetMenu !== "main")` loop: each screen is put in front of
        the path and the walk moves to its parent, until "main" or a screen nothing
        lists. After `|keys| + 1` steps the walk can only be going round a cycle
        of parents, where the source never stops; `None` stands for that. */
    method WalkUp(m: string) returns (path: Option<seq<string>>)
      requires KeysNamed(keys, screens)
      ensures path == PathTo(keys, screens, m, |keys| + 1)
    {
      var menuPath: seq<string> := [];
      var target := m;
      var fuel: nat := |keys| + 1;
      ghost var whole := PathTo(keys, screens, m, fuel);
      assert whole.Some? ==> whole.value + [] == whole.value;
      while true
        invariant Append(PathTo(keys, screens, target, fuel), menuPath) == PathTo(keys, screens, m, |keys| + 1)
        decreases fuel
      {
        if target == "main" {
          assert [] + menuPath == menuPath;
          return Some(menuPath);
        }
        if fuel == 0 {
          return None;
        }
        var p := FindParent(target);
        ghost var before := menuPath;
        menuPath := [target] + menuPath;
        if p < 0 {
          return Some(menuPath);
        }
        AppendAssoc(PathTo(keys, screens, keys[p], fuel - 1), [target], before);
        target := keys[p];
        fuel := fuel - 1;
      }
    }

    /** `updateMenuPath(video)`, with "" for no video. */
    method UpdateMenuPath(video: string)
      requires KeysNamed(keys, screens)
      modifies this
      ensures keys == old(keys) && screens == old(screens)
      ensures PathWritten(old(hash), old(effects), video)
      ensures Nav() == old(Nav())
      ensures shaderEnabled == old(shaderEnabled) && storage == old(storage)
    {
      var path := "";
      if currentMenu != "main" {
        var walked := WalkUp(currentMenu);
        if walked.None? {
          return;
        }
        path := "#" + Join(walked.value, "/");
        if video != "" {
          assert path + "/" + encode(video) == path + ("/" + encode(video));
          path := path + "/" + encode(video);
        } else {
          assert path + "" == path;
        }
      }
      assert MenuUrl(keys, screens, currentMenu, video, encode) == Some(path);
      var u := HashUpdate(hash, path, hashAfter);
      hash, effects := u.0, effects + u.1;
    }

    // -------------------------------------------------------------------------
    // utils.js: loadPreferences and toggleFullScreen
    // -------------------------------------------------------------------------

    /** `loadPreferences`: a stored "true" turns the shader on, any other stored
        string turns it off, and the SHADERS label then shows that state; with
        nothing stored the shader is turned on and the label is left alone. */
    method LoadPreferences()
      requires Valid()
      modifies this
      ensures Valid()
      ensures shaderEnabled == (ShadersKey !in old(storage) || old(storage)[ShadersKey] == "true")
      ensures effects == old(effects) + [ShaderToggled(shaderEnabled)]
      ensures ShadersKey in old(storage) ==>
        screens == RelabelFirst(old(screens), "options", StatesInclude("SHADERS: ON"), ShaderLabel(shaderEnabled))
      ensures ShadersKey in old(storage) ==> ShaderLabelInSync()
      ensures ShadersKey !in old(storage) ==> screens == old(screens)
      ensures keys == old(keys) && Nav() == old(Nav()) && storage == old(storage) && hash == old(hash)
    {
      if ShadersKey in storage {
        var enabled := storage[ShadersKey] == "true";
        ApplyShader(enabled);
        RelabelShaderShows(screens, "options", enabled);
        RelabelFirstItem("options", StatesInclude("SHADERS: ON"), ShaderLabel(enabled));
      } else {
        ApplyShader(true);
      }
    }

    /** `window.toggleVHSShader(on)`: the shader is switched on or off. */
    method ApplyShader(on: bool)
      requires Valid()
      modifies this
      ensures Valid() && shaderEnabled == on && effects == old(effects) + [ShaderToggled(on)]
      ensures keys == old(keys) && screens == old(screens) && Nav() == old(Nav())
      ensures storage == old(storage) && hash == old(hash)
    {
      shaderEnabled := on;
      effects := effects + [ShaderToggled(on)];
    }

    /** The first item of screen `menu` that `q` finds, if any, is relabelled
        `text`. */
    method RelabelFirstItem(menu: string, q: Query, text: string)
      requires Valid() && menu in screens
      modifies this
      ensures Valid() && screens == RelabelFirst(old(screens), menu, q, text)
      ensures keys == old(keys) && Nav() == old(Nav()) && hash == old(hash) && effects == old(effects)
      ensures shaderEnabled == old(shaderEnabled) && storage == old(storage)
    {
      RelabelFirstKeeps(screens, menu, q, text);
      screens := RelabelFirst(screens, menu, q, text);
    }

    /** `toggleFullScreen`: asks the browser to enter or leave full screen, and
        relabels the FULLSCREEN item from the state read before the browser has
        switched. */
    method ToggleFullScreen(fullscreenNow: bool)
      requires Valid()
      modifies this
      ensures Valid()
      ensures effects == old(effects) + [FullscreenRequest(!fullscreenNow)]
      ensures screens == RelabelFirst(old(screens), "options", StatesInclude("FULLSCREEN: ON"),
                                      FullscreenLabel(fullscreenNow))
      ensures keys == old(keys) && Nav() == old(Nav()) && hash == old(hash)
      ensures shaderEnabled == old(shaderEnabled) && storage == old(storage)
    {
      effects := effects + [FullscreenRequest(!fullscreenNow)];
      RelabelFirstItem("options", StatesInclude("FULLSCREEN: ON"), FullscreenLabel(fullscreenNow));
    }

    // -------------------------------------------------------------------------
    // menu.js: the item actions
    // -------------------------------------------------------------------------

    /** Leaving the screen shown for `target`, saving and restoring selections. */
    method SwitchMenu(target: string)
      requires Valid() && target in screens
      modifies this
      ensures Valid()
      ensures Nav() == SwitchTo(old(Nav()), target)
      ensures keys == old(keys) && screens == old(screens) && hash == old(hash) && effects == old(effects)
      ensures shaderEnabled == old(shaderEnabled) && storage == old(storage)
    {
      menuHistory := menuHistory[currentMenu := selectedIndex];
      currentMenu := target;
      selectedIndex := Restore(menuHistory, target);
    }

    /** Item `index` of screen `menu` takes the label `text`. */
    method RelabelItem(menu: string, index: nat, text: string)
      requires Valid() && menu in screens && index < |screens[menu].items|
      modifies this
      ensures Valid()
      ensures screens == old(screens)[menu := Relabel(old(screens)[menu], index, text)]
      ensures keys == old(keys) && Nav() == old(Nav()) && hash == old(hash) && effects == old(effects)
      ensures shaderEnabled == old(shaderEnabled) && storage == old(storage)
    {
      screens := screens[menu := Relabel(screens[menu], index, text)];
    }

    /** The function of the SHADERS item: its own label decides the new state. */
    method FlipShaderItem(menu: string, index: nat)
      requires Valid() && menu in screens && index < |screens[menu].items|
      modifies this
      ensures Valid()
      ensures var on := old(screens)[menu].items[index].text != "SHADERS: ON";
        screens == old(screens)[menu := Relabel(old(screens)[menu], index, ShaderLabel(on))]
        && shaderEnabled == on && storage == old(storage)[ShadersKey := BoolString(on)]
        && effects == old(effects) + [ShaderToggled(on)]
      ensures keys == old(keys) && Nav() == old(Nav()) && hash == old(hash)
      ensures (menu == "options" && index == FindIndex(old(screens)["options"].items, StatesInclude("SHADERS: ON"))
               && old(ShaderLabelInSync())) ==> ShaderLabelInSync()
    {
      if menu == "options" {
        FindIndexIgnoresText(screens[menu], index, ShaderLabel(screens[menu].items[index].text != "SHADERS: ON"),
                             StatesInclude("SHADERS: ON"));
      }
      var on := screens[menu].items[index].text != "SHADERS: ON";
      storage := storage[ShadersKey := BoolString(on)];
      shaderEnabled := on;
      effects := effects + [ShaderToggled(on)];
      RelabelItem(menu, index, ShaderLabel(on));
    }

    /** What activating item `index` of screen `menu` leaves, with `selected` the
        selection at that moment: a navigate item switches screens and rewrites the
        hash path; the SHADERS item flips the shader, its label and the stored
        preference according to its own label; the FULLSCREEN item toggles full
        screen and relabels; a "play" item exits the video playing and plays its
        own; a "none" item does nothing. */
    twostate predicate Acted(menu: string, index: nat, selected: int, fromUrl: bool, fullscreenNow: bool)
      reads this
      requires "options" in old(screens) && menu in old(screens) && index < |old(screens)[menu].items|
    {
      var item := old(screens)[menu].items[index];
      keys == old(keys)
      && match item.action
         case Navigate(t) =>
           Nav() == SwitchTo(MenuModel.Nav(old(currentMenu), selected, old(menuHistory)), t)
           && screens == old(screens) && shaderEnabled == old(shaderEnabled) && storage == old(storage)
           && KeysNamed(keys, screens) && PathWritten(old(hash), old(effects), "")
         case Toggle(_, ShaderSwitch) =>
           var on := item.text != "SHADERS: ON";
           screens == old(screens)[menu := Relabel(old(screens)[menu], index, ShaderLabel(on))]
           && shaderEnabled == on && storage == old(storage)[ShadersKey := BoolString(on)]
           && effects == old(effects) + [ShaderToggled(on)]
           && Nav() == MenuModel.Nav(old(currentMenu), selected, old(menuHistory)) && hash == old(hash)
         case Toggle(_, FullscreenSwitch) =>
           var s1 := RelabelFirst(old(screens), "options", StatesInclude("FULLSCREEN: ON"), FullscreenLabel(fullscreenNow));
           menu in s1 && index < |s1[menu].items|
           && screens == s1[menu := Relabel(s1[menu], index, FullscreenLabel(fullscreenNow))]
           && effects == old(effects) + [FullscreenRequest(!fullscreenNow)]
           && shaderEnabled == old(shaderEnabled) && storage == old(storage)
           && Nav() == MenuModel.Nav(old(currentMenu), selected, old(menuHistory)) && hash == old(hash)
         case Play(v) =>
           effects == old(effects) + [ExitVideo, PlayVideo(PlayPath(variant, old(currentMenu), v), item.text, fromUrl)]
           && screens == old(screens) && shaderEnabled == old(shaderEnabled) && storage == old(storage)
           && Nav() == MenuModel.Nav(old(currentMenu), selected, old(menuHistory)) && hash == old(hash)
         case Inert =>
           effects == old(effects) && screens == old(screens) && shaderEnabled == old(shaderEnabled)
           && storage == old(storage)
           && Nav() == MenuModel.Nav(old(currentMenu), selected, old(menuHistory)) && hash == old(hash)
    }

    /** `handleMenuAction(item, fromUrl)` for the item at position `index` of screen
        `menu`. `fullscreenNow` is `document.fullscreenElement` when it runs. */
    method HandleMenuAction(menu: string, index: nat, fromUrl: bool, fullscreenNow: bool)
      requires Valid() && menu in screens && index < |screens[menu].items|
      modifies this
      ensures Valid()
      ensures Acted(menu, index, old(selectedIndex), fromUrl, fullscreenNow)
      ensures (menu == "options" && index == FindIndex(old(screens)["options"].items, StatesInclude("SHADERS: ON"))
               && old(screens)[menu].items[index].action.switch == ShaderSwitch && old(ShaderLabelInSync()))
              ==> ShaderLabelInSync()
    {
      var item := screens[menu].items[index];
      match item.action {
        case Navigate(t) =>
          SwitchMenu(t);
          UpdateMenuPath("");
        case Toggle(_, ShaderSwitch) =>
          FlipShaderItem(menu, index);
        case Toggle(_, FullscreenSwitch) =>
          ToggleFullScreen(fullscreenNow);
          RelabelItem(menu, index, FullscreenLabel(fullscreenNow));
        case Play(v) =>
          effects := effects + [ExitVideo, PlayVideo(PlayPath(variant, currentMenu, v), item.text, fromUrl)];
        case Inert =>
      }
    }

    // -------------------------------------------------------------------------
    // menu.js: keys and clicks
    // -------------------------------------------------------------------------

    /** The "s" key: when the options screen has a SHADERS item, the shader state
        flips, the item's label shows the new state and the preference stores it. */
    method ShaderKeyPressed()
      requires Valid()
      modifies this
      ensures Valid()
      ensures ShaderLabelInSync()
      ensures FindIndex(old(screens)["options"].items, StatesInclude("SHADERS: ON")) < 0 ==>
        screens == old(screens) && shaderEnabled == old(shaderEnabled) && storage == old(storage)
        && effects == old(effects)
      ensures var k := FindIndex(old(screens)["options"].items, StatesInclude("SHADERS: ON"));
        k >= 0 ==>
          shaderEnabled == !old(shaderEnabled)
          && screens == old(screens)["options" := Relabel(old(screens)["options"], k, ShaderLabel(shaderEnabled))]
          && storage == old(storage)[ShadersKey := BoolString(shaderEnabled)]
          && effects == old(effects) + [ShaderToggled(shaderEnabled)]
      ensures keys == old(keys) && Nav() == old(Nav()) && hash == old(hash)
    {
      var k := FindIndex(screens["options"].items, StatesInclude("SHADERS: ON"));
      if k >= 0 {
        SetShaderOption(k, !shaderEnabled);
      }
    }

    /** The SHADERS item at position `k` of the options screen shows `on`, the
        preference stores it and the shader is switched to it. */
    method SetShaderOption(k: nat, on: bool)
      requires Valid() && k == FindIndex(screens["options"].items, StatesInclude("SHADERS: ON"))
      modifies this
      ensures Valid()
      ensures ShaderLabelInSync()
      ensures shaderEnabled == on
      ensures screens == old(screens)["options" := Relabel(old(screens)["options"], k, ShaderLabel(on))]
      ensures storage == old(storage)[ShadersKey := BoolString(on)]
      ensures effects == old(effects) + [ShaderToggled(on)]
      ensures keys == old(keys) && Nav() == old(Nav()) && hash == old(hash)
    {
      var options := Relabel(screens["options"], k, ShaderLabel(on));
      FindIndexIgnoresText(screens["options"], k, ShaderLabel(on), StatesInclude("SHADERS: ON"));
      ShaderLabelShowsState(on);
      assert options.items[k].text == ShaderLabel(on);
      RelabelItem("options", k, ShaderLabel(on));
      assert screens["options"] == options;
      RecordShaderState(on);
    }

    /** The new shader state is stored under `shadersEnabled` and applied. */
    method RecordShaderState(on: bool)
      requires Valid()
      modifies this
      ensures Valid() && shaderEnabled == on
      ensures storage == old(storage)[ShadersKey := BoolString(on)]
      ensures effects == old(effects) + [ShaderToggled(on)]
      ensures keys == old(keys) && screens == old(screens) && Nav() == old(Nav()) && hash == old(hash)
    {
      storage := storage[ShadersKey := BoolString(on)];
      ApplyShader(on);
    }

    /** ArrowLeft outside a video: nothing on "main"; elsewhere the screen that
        lists the one shown (or "main") is shown, selections saved and restored, and
        the hash path rewritten. */
    method GoBack()
      requires Valid()
      modifies this
      ensures Valid()
      ensures Nav() == Back(keys, screens, old(Nav()))
      ensures old(currentMenu) == "main" ==> hash == old(hash) && effects == old(effects)
      ensures old(currentMenu) != "main" ==> PathWritten(old(hash), old(effects), "")
      ensures keys == old(keys) && screens == old(screens)
      ensures shaderEnabled == old(shaderEnabled) && storage == old(storage)
    {
      if currentMenu != "main" {
        var p := FindParent(currentMenu);
        var previousMenu := if p < 0 then "main" else keys[p];
        SwitchMenu(previousMenu);
        UpdateMenuPath("");
      }
    }

    /** The keydown handler. `videoPlaying` says whether the video container is in
        full-screen video mode and `fullscreenNow` whether the document is in full
        screen. `ok` is false when Enter (or ArrowRight) finds no item at the
        selection, where the handler throws a TypeError. */
    method KeyDown(key: string, shift: bool, videoPlaying: bool, fullscreenNow: bool) returns (ok: bool)
      requires Valid()
      modifies this
      ensures Valid()
      ensures var h := Route(variant, videoPlaying, key);
        var n := |old(screens)[old(currentMenu)].items|;
        (h == Ignored || h == Unhandled ==>
           Nav() == old(Nav()) && screens == old(screens) && effects == old(effects) && hash == old(hash)
           && shaderEnabled == old(shaderEnabled) && storage == old(storage))
        && (h == MediaControl ==>
           Nav() == old(Nav()) && screens == old(screens) && effects == old(effects) + [VideoControl(key, shift)]
           && hash == old(hash) && shaderEnabled == old(shaderEnabled) && storage == old(storage))
        && (h == FullscreenKey ==>
           screens == RelabelFirst(old(screens), "options", StatesInclude("FULLSCREEN: ON"), FullscreenLabel(fullscreenNow))
           && effects == old(effects) + [FullscreenRequest(!fullscreenNow)]
           && Nav() == old(Nav()) && hash == old(hash) && shaderEnabled == old(shaderEnabled) && storage == old(storage))
        && (h == ShaderKey ==>
           ShaderLabelInSync() && Nav() == old(Nav()) && hash == old(hash)
           && (FindIndex(old(screens)["options"].items, StatesInclude("SHADERS: ON")) >= 0 <==> shaderEnabled != old(shaderEnabled)))
        && (h == SelectUp ==>
           Nav() == old(Nav()).(index := Up(old(selectedIndex), n)) && screens == old(screens)
           && effects == old(effects) && hash == old(hash) && shaderEnabled == old(shaderEnabled) && storage == old(storage))
        && (h == SelectDown ==>
           Nav() == old(Nav()).(index := Down(old(selectedIndex), n)) && screens == old(screens)
           && effects == old(effects) && hash == old(hash) && shaderEnabled == old(shaderEnabled) && storage == old(storage))
        && (h == BackKey ==>
           Nav() == Back(old(keys), old(screens), old(Nav())) && screens == old(screens)
           && shaderEnabled == old(shaderEnabled) && storage == old(storage))
        && (h == Activate && old(selectedIndex) >= n ==>
           Nav() == old(Nav()) && screens == old(screens) && effects == old(effects) && hash == old(hash)
           && shaderEnabled == old(shaderEnabled) && storage == old(storage))
        && (h == Activate && old(selectedIndex) < n ==>
           Acted(old(currentMenu), old(selectedIndex), old(selectedIndex), false, fullscreenNow))
        && (ok <==> !(h == Activate && old(selectedIndex) >= n))
      ensures keys == old(keys)
    {
      ok := true;
      var n := |screens[currentMenu].items|;
      match Route(variant, videoPlaying, key) {
        case Ignored =>
        case Unhandled =>
        case MediaControl =>
          SendVideoControl(key, shift);
        case FullscreenKey =>
          ToggleFullScreen(fullscreenNow);
        case ShaderKey =>
          ShaderKeyPressed();
        case SelectUp =>
          Select(Up(selectedIndex, n));
        case SelectDown =>
          Select(Down(selectedIndex, n));
        case BackKey =>
          GoBack();
        case Activate =>
          if selectedIndex < n {
            HandleMenuAction(currentMenu, selectedIndex, false, fullscreenNow);
          } else {
            ok := false;
          }
      }
    }

    /** The selection moves to item `i` of the screen shown. */
    method Select(i: nat)
      requires Valid()
      modifies this
      ensures Valid() && Nav() == old(Nav()).(index := i)
      ensures keys == old(keys) && screens == old(screens) && effects == old(effects) && hash == old(hash)
      ensures shaderEnabled == old(shaderEnabled) && storage == old(storage)
    {
      selectedIndex := i;
    }

    /** A media key is handed to the video element. */
    method SendVideoControl(key: string, shift: bool)
      requires Valid()
      modifies this
      ensures Valid() && Nav() == old(Nav()) && effects == old(effects) + [VideoControl(key, shift)]
      ensures keys == old(keys) && screens == old(screens) && hash == old(hash)
      ensures shaderEnabled == old(shaderEnabled) && storage == old(storage)
    {
      effects := effects + [VideoControl(key, shift)];
    }

    /** A click on item `index` of the screen shown, in the older module: the item
        is selected, then activated. */
    method Click(index: nat, fullscreenNow: bool)
      requires variant == Legacy
      requires Valid() && index < |screens[currentMenu].items|
      modifies this
      ensures Valid()
      ensures Acted(old(currentMenu), index, index, false, fullscreenNow)
    {
      selectedIndex := index;
      HandleMenuAction(currentMenu, index, false, fullscreenNow);
    }

    // -------------------------------------------------------------------------
    // menu.js: parseUrlAndNavigate
    // -------------------------------------------------------------------------

    /** The loop of `parseUrlAndNavigate` over the segments, each decoded when
        the loop reaches it: whether `decodeURIComponent` threw, whether every
        segment was followed, the screen reached and the video named by the last
        segment. The position of each navigate item followed is saved as its
        screen's selection as the loop goes, and stays saved when a later
        segment throws. */
    method FollowSegments(segs: seq<string>) returns (threw: bool, valid: bool, reached: string, video: Option<string>)
      requires Valid()
      modifies this
      ensures Valid() && reached in screens
      ensures var o := LoopFrom(screens, segs, decode, 0, "main", old(menuHistory));
        threw == o.Threw?
        && (o.Threw? ==> menuHistory == o.history)
        && (o.Finished? ==> valid == o.walk.valid && reached == o.walk.menu && video == o.walk.video
                            && menuHistory == o.walk.history)
      ensures keys == old(keys) && screens == old(screens) && currentMenu == old(currentMenu)
      ensures selectedIndex == old(selectedIndex) && hash == old(hash) && effects == old(effects)
      ensures shaderEnabled == old(shaderEnabled) && storage == old(storage)
    {
      threw, valid, reached, video := false, true, "main", None;
      var i := 0;
      while i < |segs|
        invariant 0 <= i <= |segs| && reached in screens && Valid()
        invariant LoopFrom(screens, segs, decode, 0, "main", old(menuHistory))
                  == LoopFrom(screens, segs, decode, i, reached, menuHistory)
        invariant keys == old(keys) && screens == old(screens) && currentMenu == old(currentMenu)
        invariant selectedIndex == old(selectedIndex) && hash == old(hash) && effects == old(effects)
        invariant shaderEnabled == old(shaderEnabled) && storage == old(storage)
      {
        var decoded := decode(segs[i]);
        if decoded.None? {
          threw := true;
          return;
        }
        var nextSegment := decoded.value;
        if i == |segs| - 1 && FindIndex(screens[reached].items, PlayLabelled(nextSegment)) >= 0 {
          video := Some(nextSegment);
          return;
        }
        var k := FindIndex(screens[reached].items, TargetOf(nextSegment));
        if k < 0 {
          valid := false;
          return;
        }
        assert screens[reached].items[k].action.target == nextSegment;
        menuHistory := menuHistory[reached := k];
        reached := nextSegment;
        i := i + 1;
      }
    }

    /** `parseUrlAndNavigate`: with a hash, its path after the `#` is split at "/"
        and walked from "main". When a segment does not decode, the URIError
        leaves the function with the selections saved so far and nothing else
        changed; otherwise the screen, the selection and a video to play after
        100 ms are what `Settle` decides (`Land`, when every segment decodes).
        Without a hash nothing changes. */
    method ParseUrlAndNavigate()
      requires Valid()
      modifies this
      ensures Valid()
      ensures keys == old(keys) && screens == old(screens) && hash == old(hash)
      ensures shaderEnabled == old(shaderEnabled) && storage == old(storage)
      ensures old(hash) == "" ==> Nav() == old(Nav()) && effects == old(effects)
      ensures old(hash) != "" ==>
        match LoopFrom(screens, Split(old(hash)[1..], '/'), decode, 0, "main", old(menuHistory))
        case Threw(h) =>
          Nav() == MenuModel.Nav(old(currentMenu), old(selectedIndex), h) && effects == old(effects) + [UriError]
        case Finished(w) =>
          var r := Settle(screens, old(currentMenu), old(selectedIndex), w);
          Nav() == r.nav
          && effects == old(effects) + (match r.play case None => [] case Some(k) => [PlayLater(r.nav.menu, k)])
    {
      if hash == "" {
        return;
      }
      var path := Split(hash[1..], '/');
      var threw, valid, reached, video := FollowSegments(path);
      if threw {
        effects := effects + [UriError];
        return;
      }
      ApplyWalk(valid, reached, video);
    }

    /** What follows the loop of `parseUrlAndNavigate`: the screen, the selection
        and the video to play are set as `Settle` decides. */
    method ApplyWalk(valid: bool, reached: string, video: Option<string>)
      requires Valid() && reached in screens
      modifies this
      ensures Valid()
      ensures var r := Settle(old(screens), old(currentMenu), old(selectedIndex),
                              Walk(valid, reached, old(menuHistory), video));
        Nav() == r.nav
        && effects == old(effects) + (match r.play case None => [] case Some(k) => [PlayLater(r.nav.menu, k)])
      ensures keys == old(keys) && screens == old(screens) && hash == old(hash)
      ensures shaderEnabled == old(shaderEnabled) && storage == old(storage)
    {
      if valid {
        if reached != "main" {
          currentMenu := reached;
          selectedIndex := Restore(menuHistory, currentMenu);
        }
        if video.Some? && video.value != "" {
          var k := FindIndex(screens[currentMenu].items, PlayLabelled(video.value));
          if k >= 0 {
            selectedIndex := k;
            effects := effects + [PlayLater(currentMenu, k)];
          }
        }
      } else {
        currentMenu := "main";
        selectedIndex := 0;
      }
    }

    // -------------------------------------------------------------------------
    // menu.js (renderer): channels added at run time
    // -------------------------------------------------------------------------

    /** Screen `key` is set to `screen`: an existing key keeps its place, a new one
        takes the place `for…in` order gives it (last, unless it is an array
        index). */
    method PutScreen(key: string, screen: Screen)
      requires Valid() && |screen.items| > 0
      requires forall i :: 0 <= i < |screen.items| && screen.items[i].action.Navigate?
                 ==> screen.items[i].action.target in screens
      modifies this
      ensures Valid()
      ensures keys == (if key in old(keys) then old(keys) else AddKey(old(keys), key))
      ensures screens == old(screens)[key := screen]
      ensures Nav() == old(Nav()) && hash == old(hash) && effects == old(effects)
      ensures shaderEnabled == old(shaderEnabled) && storage == old(storage)
    {
      var added := screens[key := screen];
      if key !in keys {
        KeyAdded(keys, screens, key, screen);
        keys := AddKey(keys, key);
      }
      screens := added;
    }

    /** The navigate item `entry` is spliced into the channels screen at `start`,
        or, when `start` is `None`, just before its BACK item. */
    method SpliceChannel(entry: Item, start: Option<int>)
      requires Valid() && entry.action.Navigate? && entry.action.target in screens
      modifies this
      ensures Valid()
      ensures var ch := old(screens)["channels"].items;
        var at := match start
          case Some(s) => SpliceStart(s, |ch|)
          case None => SpliceStart(FindIndex(ch, Labelled("BACK")), |ch|);
        screens == old(screens)["channels" := Screen(old(screens)["channels"].header, Insert(ch, at, entry))]
      ensures keys == old(keys) && Nav() == old(Nav()) && hash == old(hash) && effects == old(effects)
      ensures shaderEnabled == old(shaderEnabled) && storage == old(storage)
    {
      var items := screens["channels"].items;
      var at := match start
        case Some(s) => SpliceStart(s, |items|)
        case None => SpliceStart(FindIndex(items, Labelled("BACK")), |items|);
      var spliced := Insert(items, at, entry);
      assert forall i :: 0 <= i < |spliced| && spliced[i].action.Navigate? ==> spliced[i].action.target in screens by {
        InsertedFrom(items, at, entry);
      }
      ItemsReplaced(keys, screens, "channels", spliced);
      screens := screens["channels" := Screen(screens["channels"].header, spliced)];
    }

    /** `addChannelToMenu(name, videos)`: a screen keyed by the lower-cased name
        holds the videos then BACK to the channels screen, and an entry for it goes
        just before the channels screen's BACK item (before its last item when it
        has none). */
    method AddChannelToMenu(name: string, videos: seq<Video>)
      requires variant == Renderer && Valid()
      modifies this
      ensures Valid()
      ensures keys == (if ToLower(name) in old(keys) then old(keys) else AddKey(old(keys), ToLower(name)))
      ensures screens == WithChannel(old(screens), ToLower(name),
                                     Screen(ChannelHeader(name), VideoItems(videos) + [BackToChannels]),
                                     Item(name, Navigate(ToLower(name))), None)
      ensures Nav() == old(Nav()) && hash == old(hash) && effects == old(effects)
      ensures shaderEnabled == old(shaderEnabled) && storage == old(storage)
    {
      var key := ToLower(name);
      PutScreen(key, Screen(ChannelHeader(name), VideoItems(videos) + [BackToChannels]));
      SpliceChannel(Item(name, Navigate(key)), None);
    }

    /** The menu part of `addFolderToChannels(folder)`, given the video files the
        scan found: a screen keyed by the lower-cased folder name holds one item per
        file, labelled without its extension, then BACK to the channels screen, and
        an entry for it goes before the channels screen's last item. */
    method AddFolderToChannels(name: string, files: seq<Video>)
      requires variant == Renderer && Valid()
      modifies this
      ensures Valid()
      ensures keys == (if ToLower(name) in old(keys) then old(keys) else AddKey(old(keys), ToLower(name)))
      ensures screens == WithChannel(old(screens), ToLower(name),
                                     Screen(ChannelHeader(name), FolderItems(files) + [BackToChannels]),
                                     Item(name, Navigate(ToLower(name))), Some(-1))
      ensures Nav() == old(Nav()) && hash == old(hash) && effects == old(effects)
      ensures shaderEnabled == old(shaderEnabled) && storage == old(storage)
    {
      var key := ToLower(name);
      PutScreen(key, Screen(ChannelHeader(name), FolderItems(files) + [BackToChannels]));
      SpliceChannel(Item(name, Navigate(key)), Some(-1));
    }
  }

  /** The items of a channel screen: one "play" item per video. */
  function VideoItems(videos: seq<Video>): (items: seq<Item>)
    ensures |items| == |videos|
    ensures forall i :: 0 <= i < |videos| ==> items[i] == Item(videos[i].name, Play(videos[i].path))
  {
    seq(|videos|, i requires 0 <= i < |videos| => Item(videos[i].name, Play(videos[i].path)))
  }

  /** The items of a dropped folder's screen: one "play" item per video file,
      labelled with the file name without its extension. */
  function FolderItems(files: seq<Video>): (items: seq<Item>)
    ensures |items| == |files|
    ensures forall i :: 0 <= i < |files| ==> items[i] == Item(StripExtension(files[i].name), Play(files[i].path))
  {
    seq(|files|, i requires 0 <= i < |files| => Item(StripExtension(files[i].name), Play(files[i].path)))
  }

  /** The BACK item that ends every channel screen. */
  const BackToChannels := Item("BACK", Navigate("channels"))

  /** The screens with a channel screen `key` added (or replaced), and then the
      entry `entry` spliced into the channels screen at `start`. */
  function WithChannel(screens: map<string, Screen>, key: string, screen: Screen, entry: Item, start: Option<int>)
    : map<string, Screen>
    requires "channels" in screens
  {
    var added := screens[key := screen];
    var ch := added["channels"].items;
    var at := match start
      case Some(s) => SpliceStart(s, |ch|)
      case None => SpliceStart(FindIndex(ch, Labelled("BACK")), |ch|);
    added["channels" := Screen(added["channels"].header, Insert(ch, at, entry))]
  }

  /** A channel goes right before the channels screen's BACK item: what stood
      before BACK keeps its place, BACK and what follows move one place on, the
      channel's own screen is stored under its key and no other screen changes. */
  lemma ChannelGoesBeforeBack(screens: map<string, Screen>, key: string, screen: Screen, entry: Item)
    requires "channels" in screens && key != "channels"
    requires FindIndex(screens["channels"].items, Labelled("BACK")) >= 0
    ensures var r := WithChannel(screens, key, screen, entry, None);
      var ch := screens["channels"].items;
      var b := FindIndex(ch, Labelled("BACK"));
      r.Keys == screens.Keys + {key} && r[key] == screen
      && r["channels"].header == screens["channels"].header
      && r["channels"].items[..b] == ch[..b]
      && r["channels"].items[b] == entry
      && r["channels"].items[b + 1].text == "BACK"
      && r["channels"].items[b + 1..] == ch[b..]
      && (forall m :: m in screens && m != key && m != "channels" ==> r[m] == screens[m])
  {
    var ch := screens["channels"].items;
    var b := FindIndex(ch, Labelled("BACK"));
    assert SpliceStart(b, |ch|) == b;
  }

  /** A dropped folder goes right before the channels screen's last item, which
      stays last. */
  lemma FolderGoesBeforeLast(screens: map<string, Screen>, key: string, screen: Screen, entry: Item)
    requires "channels" in screens && key != "channels"
    requires |screens["channels"].items| > 0
    ensures var r := WithChannel(screens, key, screen, entry, Some(-1));
      var ch := screens["channels"].items;
      var n := |ch|;
      r.Keys == screens.Keys + {key} && r[key] == screen
      && |r["channels"].items| == n + 1
      && r["channels"].items[..n - 1] == ch[..n - 1]
      && r["channels"].items[n - 1] == entry
      && r["channels"].items[n] == ch[n - 1]
      && (forall m :: m in screens && m != key && m != "channels" ==> r[m] == screens[m])
  {
    var ch := screens["channels"].items;
    assert SpliceStart(-1, |ch|) == |ch| - 1;
    var r := WithChannel(screens, key, screen, entry, Some(-1));
    assert r["channels"].items[|ch|..] == ch[|ch| - 1..];
  }

  /** A dropped folder named "1999": its key is an array index, so its screen
      comes first in key order. Its BACK item lists the channels screen, so
      ArrowLeft on the channels screen goes to the folder rather than to "main",
      and the parent walk of `updateMenuPath` from the channels screen goes
      round between the two and never stops. */
  lemma DigitFolderCapturesChannels(fullscreenNow: bool, files: seq<Video>, encode: string -> string)
    ensures var keys := AddKey(InitialKeys(Renderer), "1999");
      var screens := WithChannel(InitialScreens(Renderer, fullscreenNow), "1999",
                                 Screen(ChannelHeader("1999"), FolderItems(files) + [BackToChannels]),
                                 Item("1999", Navigate("1999")), Some(-1));
      keys == ["1999", "main", "options", "info", "channels"]
      && KeysNamed(keys, screens)
      && BackTarget(keys, screens, "channels") == "1999"
      && MenuUrl(keys, screens, "channels", "", encode) == None
  {
    DigitKeyGoesFirst();
    var keys := ["1999", "main", "options", "info", "channels"];
    var screens := WithChannel(InitialScreens(Renderer, fullscreenNow), "1999",
                               Screen(ChannelHeader("1999"), FolderItems(files) + [BackToChannels]),
                               Item("1999", Navigate("1999")), Some(-1));
    DigitFolderScreens(fullscreenNow, files);
    ChannelsCapturedBy(keys, screens, "1999");
  }

  /** Which screens of that menu list the folder and the channels screen. */
  lemma DigitFolderScreens(fullscreenNow: bool, files: seq<Video>)
    ensures var screens := WithChannel(InitialScreens(Renderer, fullscreenNow), "1999",
                                       Screen(ChannelHeader("1999"), FolderItems(files) + [BackToChannels]),
                                       Item("1999", Navigate("1999")), Some(-1));
      screens.Keys == {"1999", "main", "options", "info", "channels"}
      && FindIndex(screens["1999"].items, TargetOf("channels")) >= 0
      && FindIndex(screens["1999"].items, TargetOf("1999")) == -1
      && FindIndex(screens["main"].items, TargetOf("1999")) == -1
      && FindIndex(screens["options"].items, TargetOf("1999")) == -1
      && FindIndex(screens["info"].items, TargetOf("1999")) == -1
      && FindIndex(screens["channels"].items, TargetOf("1999")) >= 0
  {
    var base := InitialScreens(Renderer, fullscreenNow);
    var folder := FolderItems(files) + [BackToChannels];
    var screens := WithChannel(base, "1999", Screen(ChannelHeader("1999"), folder),
                               Item("1999", Navigate("1999")), Some(-1));
    assert screens["1999"].items == folder;
    assert Matches(folder[|folder| - 1], TargetOf("channels"));
    assert forall j :: 0 <= j < |folder| ==> !Matches(folder[j], TargetOf("1999"));
    assert screens["channels"].items == [Item("1999", Navigate("1999")), Item("BACK", Navigate("main"))];
    InitialScreensIgnore(fullscreenNow, "1999");
    assert screens["main"] == base["main"] && screens["options"] == base["options"] && screens["info"] == base["info"];
  }

  /** No initial screen lists a key that names no initial screen. */
  lemma InitialScreensIgnore(fullscreenNow: bool, t: string)
    requires t !in {"main", "options", "info", "channels"}
    ensures var base := InitialScreens(Renderer, fullscreenNow);
      base.Keys == {"main", "options", "info", "channels"}
      && FindIndex(base["main"].items, TargetOf(t)) == -1
      && FindIndex(base["options"].items, TargetOf(t)) == -1
      && FindIndex(base["info"].items, TargetOf(t)) == -1
  {
    var base := InitialScreens(Renderer, fullscreenNow);
    InitialValid(Renderer, fullscreenNow);
    NotListedOutside(base, "main", t);
    NotListedOutside(base, "options", t);
    NotListedOutside(base, "info", t);
  }

  /** A screen `d` visited first whose BACK item lists the channels screen,
      listed by the channels screen and by no screen before it: it becomes the
      channels screen's parent, and the two are each other's parent. */
  lemma ChannelsCapturedBy(keys: seq<string>, screens: map<string, Screen>, d: string)
    requires keys == [d, "main", "options", "info", "channels"] && d != "main" && d != "channels"
    requires screens.Keys == {d, "main", "options", "info", "channels"}
    requires FindIndex(screens[d].items, TargetOf("channels")) >= 0
    requires FindIndex(screens[d].items, TargetOf(d)) == -1
    requires FindIndex(screens["main"].items, TargetOf(d)) == -1
    requires FindIndex(screens["options"].items, TargetOf(d)) == -1
    requires FindIndex(screens["info"].items, TargetOf(d)) == -1
    requires FindIndex(screens["channels"].items, TargetOf(d)) >= 0
    ensures KeysNamed(keys, screens)
    ensures BackTarget(keys, screens, "channels") == d
    ensures forall video, encode :: MenuUrl(keys, screens, "channels", video, encode) == None
  {
    assert ParentIndex(keys, screens, "channels", 0) == 0;
    assert ParentIndex(keys, screens, d, 4) == 4;
    assert ParentIndex(keys, screens, d, 1) == 4;
    ParentCycle(keys, screens, "channels", d, |keys| + 1);
  }

  /** The keys are distinct and name exactly the screens; "main", "options",
      "channels" and the current screen exist; every screen has items, and every
      item that navigates names a screen; the selection and the saved selections
      are not negative. */
  ghost predicate Consistent(keys: seq<string>, screens: map<string, Screen>, currentMenu: string,
                             selectedIndex: int, menuHistory: map<string, int>)
  {
    (forall i, j :: 0 <= i < j < |keys| ==> keys[i] != keys[j])
    && KeysNamed(keys, screens)
    && (forall k :: k in screens ==> k in keys)
    && "main" in screens && "options" in screens && "channels" in screens
    && currentMenu in screens
    && (forall k :: k in screens ==> |screens[k].items| > 0)
    && Closed(screens)
    && selectedIndex >= 0
    && (forall k :: k in menuHistory ==> menuHistory[k] >= 0)
  }

  /** Replacing the items of a listed screen by a non-empty list whose targets
      are screens keeps every screen named, non-empty and closed. */
  lemma ItemsReplaced(keys: seq<string>, screens: map<string, Screen>, k: string, items: seq<Item>)
    requires k in screens && |items| > 0 && Closed(screens)
    requires KeysNamed(keys, screens) && (forall x :: x in screens ==> x in keys)
    requires forall x :: x in screens ==> |screens[x].items| > 0
    requires forall i :: 0 <= i < |items| && items[i].action.Navigate? ==> items[i].action.target in screens
    ensures var after := screens[k := Screen(screens[k].header, items)];
      after.Keys == screens.Keys && KeysNamed(keys, after) && (forall x :: x in after ==> x in keys)
      && (forall x :: x in after ==> |after[x].items| > 0) && Closed(after)
  {
    var after := screens[k := Screen(screens[k].header, items)];
    assert after.Keys == screens.Keys;
  }

  /** A new screen's key added to the keys: they stay distinct and name the
      screens with the new one, and no others. */
  lemma KeyAdded(keys: seq<string>, screens: map<string, Screen>, key: string, screen: Screen)
    requires (forall i, j :: 0 <= i < j < |keys| ==> keys[i] != keys[j])
    requires KeysNamed(keys, screens) && (forall m :: m in screens ==> m in keys)
    requires key !in keys
    ensures var nk := AddKey(keys, key);
      (forall i, j :: 0 <= i < j < |nk| ==> nk[i] != nk[j])
      && KeysNamed(nk, screens[key := screen]) && (forall m :: m in screens[key := screen] ==> m in nk)
  {
    AddKeyDistinct(keys, key);
    AddKeyNamed(keys, screens, key, screen);
  }

  /** No initial key is an array index, so the literal's order is the
      `for…in` order. */
  lemma InitialKeysInOrder(variant: Variant)
    ensures InKeyOrder(InitialKeys(variant))
  {
    var keys := InitialKeys(variant);
    forall j | 0 <= j < |keys|
      ensures !IsArrayIndex(keys[j])
    {
      assert !IsDigit(keys[j][0]);
    }
  }

  /** What `updateMenuPath` does once it has computed the path `p`, given the
      hash `hash` it reads: when they differ, the URL `p || "#"` is written and
      the hash then reads as the browser stores it; otherwise nothing happens. */
  function HashUpdate(hash: string, p: string, hashAfter: string -> string): (string, seq<Effect>) {
    if hash != p then (hashAfter(UrlWritten(p)), [ReplaceUrl(UrlWritten(p))]) else (hash, [])
  }

  /** Calling `updateMenuPath` again on the same screen writes the URL again
      exactly when the browser reads the written URL back as a different hash,
      as it does for a path with a space or a non-ASCII letter. */
  lemma HashRewrittenUnlessReadBack(hash: string, p: string, hashAfter: string -> string)
    requires hash != p
    ensures var first := HashUpdate(hash, p, hashAfter);
      first.1 == [ReplaceUrl(UrlWritten(p))]
      && (HashUpdate(first.0, p, hashAfter).1 == [] <==> hashAfter(UrlWritten(p)) == p)
  {
  }

  /** The initial screens are closed, each has an item, and the keys list them
      once each. */
  /** The menu the page starts with, showing "main" with nothing saved, is a
      consistent menu state. */
  lemma InitialConsistent(variant: Variant, fullscreenNow: bool)
    ensures Consistent(InitialKeys(variant), InitialScreens(variant, fullscreenNow), "main", 0, map[])
  {
    InitialValid(variant, fullscreenNow);
  }

  lemma InitialValid(variant: Variant, fullscreenNow: bool)
    ensures var keys := InitialKeys(variant);
      var screens := InitialScreens(variant, fullscreenNow);
      (forall i, j :: 0 <= i < j < |keys| ==> keys[i] != keys[j])
      && KeysNamed(keys, screens)
      && (forall k :: k in screens ==> k in keys)
      && (forall k :: k in screens ==> |screens[k].items| > 0)
      && Closed(screens)
  {
    var screens := InitialScreens(variant, fullscreenNow);
    var keys := InitialKeys(variant);
    assert screens.Keys == set k | k in keys;
    forall k, i | k in screens && 0 <= i < |screens[k].items| && screens[k].items[i].action.Navigate?
      ensures screens[k].items[i].action.target in screens
    {
      assert k in keys;
    }
  }

  /** Appending in two steps is appending once. */
  lemma AppendAssoc(p: Option<seq<string>>, a: seq<string>, b: seq<string>)
    ensures Append(Append(p, a), b) == Append(p, a + b)
  {
    if p.Some? {
      assert p.value + a + b == p.value + (a + b);
    }
  }
}
