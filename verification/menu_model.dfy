/** The values both menu modules work on: screens of items, the searches their
    handlers run over an item list and over the screens in the order `for…in`
    lists an object's keys, the
    wrap-around selection rule, the save-and-restore of the selection when the
    screen changes, the walk that names the hash path of a screen and the walk back
    down that a hash path describes. */
module MenuModel {
  import opened Text

  /** Which setting a toggle item flips. */
  datatype Switch = ShaderSwitch | FullscreenSwitch

  /** What activating an item does: the actions "navigate", "play", "toggle" (with
      its two labels in `states`) and "none". */
  datatype Action =
    | Navigate(target: string)
    | Play(video: string)
    | Toggle(states: seq<string>, switch: Switch)
    | Inert

  datatype Item = Item(text: string, action: Action)

  datatype Screen = Screen(header: string, items: seq<Item>)

  /** The item properties the handlers search for (`text` is the item's label). */
  datatype Query =
    | TargetOf(menu: string)        // the item's `target` is `menu`
    | PlayLabelled(title: string)   // a "play" item with this label
    | Labelled(title: string)       // any item with this label
    | StatesInclude(title: string)  // `states[0]` or `states[1]` is this label

  predicate Matches(it: Item, q: Query) {
    match q
    case TargetOf(m) => it.action.Navigate? && it.action.target == m
    case PlayLabelled(l) => it.action.Play? && it.text == l
    case Labelled(l) => it.text == l
    case StatesInclude(l) =>
      it.action.Toggle?
      && ((|it.action.states| > 0 && it.action.states[0] == l)
          || (|it.action.states| > 1 && it.action.states[1] == l))
  }

  /** `items.findIndex(…)`, which is also the `indexOf` of the item `find` returns:
      the first matching position, or -1 when no item matches. */
  function FindIndex(items: seq<Item>, q: Query): (k: int)
    ensures -1 <= k < |items|
    ensures k >= 0 ==> Matches(items[k], q)
    ensures forall j :: 0 <= j < |items| && (k < 0 || j < k) ==> !Matches(items[j], q)
    decreases |items|
  {
    if |items| == 0 then -1
    else if Matches(items[0], q) then 0
    else
      var k := FindIndex(items[1..], q);
      if k < 0 then -1 else k + 1
  }

  /** Two lists whose items match `q` at the same positions give the same answer. */
  lemma FindIndexSamePattern(a: seq<Item>, b: seq<Item>, q: Query)
    requires |a| == |b|
    requires forall j :: 0 <= j < |a| ==> Matches(a[j], q) == Matches(b[j], q)
    ensures FindIndex(a, q) == FindIndex(b, q)
  {
    var ka, kb := FindIndex(a, q), FindIndex(b, q);
    if ka >= 0 && kb >= 0 {
      assert !(ka < kb) && !(kb < ka);
    }
  }

  /** Renaming an item does not move the item found by its action alone. */
  lemma FindIndexIgnoresText(s: Screen, k: nat, text: string, q: Query)
    requires k < |s.items| && (q.TargetOf? || q.StatesInclude?)
    ensures FindIndex(Relabel(s, k, text).items, q) == FindIndex(s.items, q)
  {
    FindIndexSamePattern(Relabel(s, k, text).items, s.items, q);
  }

  // ---------------------------------------------------------------------------
  // Selection
  // ---------------------------------------------------------------------------

  /** ArrowDown: `(i + 1) % n`. */
  function Down(i: int, n: int): (r: int)
    requires i >= 0 && n > 0
    ensures 0 <= r < n
  {
    (i + 1) % n
  }

  /** ArrowUp: `(i - 1 + n) % n`; on a non-negative index both operands are
      non-negative, so JavaScript's `%` and Dafny's agree. */
  function Up(i: int, n: int): (r: int)
    requires i >= 0 && n > 0
    ensures 0 <= r < n
  {
    (i - 1 + n) % n
  }

  /** A value below twice the modulus loses at most one modulus. */
  lemma ModBelowTwice(x: int, n: int)
    requires n > 0 && 0 <= x < 2 * n
    ensures x % n == if x < n then x else x - n
  {
    var q, r := x / n, x % n;
    assert x == q * n + r && 0 <= r < n;
    if x < n {
      assert q * n < n;
      assert q == 0;
    } else {
      assert n <= q * n + r < 2 * n;
      assert q == 1;
    }
  }

  /** ArrowUp undoes ArrowDown and ArrowDown undoes ArrowUp on an index in range. */
  lemma UpUndoesDown(i: int, n: int)
    requires 0 <= i < n
    ensures Up(Down(i, n), n) == i
    ensures Down(Up(i, n), n) == i
  {
    ModBelowTwice(i + 1, n);
    var d := Down(i, n);
    ModBelowTwice(d - 1 + n, n);
    ModBelowTwice(i - 1 + n, n);
    var u := Up(i, n);
    ModBelowTwice(u + 1, n);
  }

  /** The selection, the screen shown and the saved selection of each screen. */
  datatype Nav = Nav(menu: string, index: int, history: map<string, int>)

  /** `menuHistory[m] || 0`: the saved selection, or 0 when none was saved. */
  function Restore(history: map<string, int>, m: string): int {
    if m in history then history[m] else 0
  }

  /** Leaving a screen: its selection is saved, the target is shown and the target's
      saved selection (or 0) comes back. */
  function SwitchTo(nav: Nav, target: string): (r: Nav)
    ensures r.menu == target
    ensures r.history == nav.history[nav.menu := nav.index]
    ensures target == nav.menu ==> r.index == nav.index
    ensures target != nav.menu ==> r.index == Restore(nav.history, target)
  {
    var h := nav.history[nav.menu := nav.index];
    Nav(target, Restore(h, target), h)
  }

  /** Going from A to B and back to A brings A's selection back. */
  lemma SwitchBackRestores(nav: Nav, b: string)
    ensures SwitchTo(SwitchTo(nav, b), nav.menu).menu == nav.menu
    ensures SwitchTo(SwitchTo(nav, b), nav.menu).index == nav.index
  {
  }

  // ---------------------------------------------------------------------------
  // The order of an object's own keys
  // ---------------------------------------------------------------------------

  /** A key JavaScript treats as an array index: the canonical decimal spelling
      (no sign, no leading zero) of an integer below 2^32 - 1. */
  predicate IsArrayIndex(k: string) {
    |k| > 0 && AllDigits(k) && (k[0] != '0' || k == "0") && Decimal(k) < 0xFFFF_FFFF
  }

  /** The order in which `for…in` visits an object's own string keys: every
      array index comes before every other key, the array indices ascending;
      the other keys keep the order they were added in. */
  predicate InKeyOrder(keys: seq<string>) {
    forall i, j :: 0 <= i < j < |keys| && IsArrayIndex(keys[j]) ==>
      IsArrayIndex(keys[i]) && Decimal(keys[i]) <= Decimal(keys[j])
  }

  /** The place a new key takes: an array index goes before the first key that
      is not an array index or is a larger one; any other key goes last. */
  function KeySlot(keys: seq<string>, k: string): (p: nat)
    ensures p <= |keys|
    ensures !IsArrayIndex(k) ==> p == |keys|
    decreases |keys|
  {
    if |keys| == 0 then 0
    else if IsArrayIndex(k) && (!IsArrayIndex(keys[0]) || Decimal(k) < Decimal(keys[0])) then 0
    else 1 + KeySlot(keys[1..], k)
  }

  /** The keys before the slot of an array index are array indices no larger
      than it, and the key at the slot is not an array index or is larger. */
  lemma {:induction false} KeySlotBetween(keys: seq<string>, k: string)
    requires IsArrayIndex(k)
    ensures var p := KeySlot(keys, k);
      (forall i :: 0 <= i < p ==> IsArrayIndex(keys[i]) && Decimal(keys[i]) <= Decimal(k))
      && (p < |keys| ==> !IsArrayIndex(keys[p]) || Decimal(k) < Decimal(keys[p]))
    decreases |keys|
  {
    if |keys| > 0 && KeySlot(keys, k) > 0 {
      KeySlotBetween(keys[1..], k);
      var p := KeySlot(keys, k);
      assert p == 1 + KeySlot(keys[1..], k);
      forall i | 0 < i < p
        ensures IsArrayIndex(keys[i]) && Decimal(keys[i]) <= Decimal(k)
      {
        assert keys[i] == keys[1..][i - 1];
      }
    }
  }

  /** The keys after `obj[k] = v` adds the key `k`. */
  function AddKey(keys: seq<string>, k: string): (r: seq<string>)
    ensures |r| == |keys| + 1
    decreases |keys|
  {
    if |keys| == 0 then [k]
    else if IsArrayIndex(k) && (!IsArrayIndex(keys[0]) || Decimal(k) < Decimal(keys[0])) then [k] + keys
    else [keys[0]] + AddKey(keys[1..], k)
  }

  /** The new key goes into its slot. */
  lemma {:induction false} AddKeyAtSlot(keys: seq<string>, k: string)
    ensures var p := KeySlot(keys, k);
      AddKey(keys, k) == keys[..p] + [k] + keys[p..]
    decreases |keys|
  {
    if |keys| > 0 && KeySlot(keys, k) > 0 {
      AddKeyAtSlot(keys[1..], k);
      var p := KeySlot(keys[1..], k);
      assert keys[1..][..p] == keys[1..p + 1] && keys[1..][p..] == keys[p + 1..];
      assert [keys[0]] + keys[1..p + 1] == keys[..p + 1];
    }
  }

  /** Adding a key keeps the keys in `for…in` order, adds that one key and
      nothing else, and leaves the others in their order; a key that is not an
      array index goes last. */
  lemma AddKeyInOrder(keys: seq<string>, k: string)
    requires InKeyOrder(keys)
    ensures InKeyOrder(AddKey(keys, k))
    ensures |AddKey(keys, k)| == |keys| + 1
    ensures forall x :: x in AddKey(keys, k) <==> x in keys || x == k
    ensures exists p :: 0 <= p <= |keys| && AddKey(keys, k) == keys[..p] + [k] + keys[p..]
    ensures !IsArrayIndex(k) ==> AddKey(keys, k) == keys + [k]
  {
    AddKeyAtSlot(keys, k);
    AddKeyKeepsOrder(keys, k);
    var p := KeySlot(keys, k);
    assert keys == keys[..p] + keys[p..];
    if !IsArrayIndex(k) {
      assert keys[..|keys|] == keys && keys[|keys|..] == [];
    }
  }

  lemma AddKeyKeepsOrder(keys: seq<string>, k: string)
    requires InKeyOrder(keys)
    ensures InKeyOrder(AddKey(keys, k))
  {
    var p := KeySlot(keys, k);
    var r := AddKey(keys, k);
    if IsArrayIndex(k) {
      KeySlotBetween(keys, k);
    }
    forall i, j | 0 <= i < j < |r| && IsArrayIndex(r[j])
      ensures IsArrayIndex(r[i]) && Decimal(r[i]) <= Decimal(r[j])
    {
      AddKeyPlaces(keys, k, i);
      AddKeyPlaces(keys, k, j);
      if p < j && i <= p {
        ArrayIndexAfterSlot(keys, k, p, j - 1);
      }
    }
  }

  /** Where each key of `AddKey(keys, k)` comes from. */
  lemma AddKeyPlaces(keys: seq<string>, k: string, i: nat)
    requires i <= |keys|
    ensures var p := KeySlot(keys, k);
      var r := AddKey(keys, k);
      (i < p ==> r[i] == keys[i]) && (i == p ==> r[i] == k) && (p < i ==> r[i] == keys[i - 1])
  {
    AddKeyAtSlot(keys, k);
  }

  /** An array index at or after the slot of an array index is larger. */
  lemma ArrayIndexAfterSlot(keys: seq<string>, k: string, p: nat, j: nat)
    requires InKeyOrder(keys) && IsArrayIndex(k) && p == KeySlot(keys, k) && p <= j < |keys|
    requires IsArrayIndex(keys[j])
    ensures Decimal(k) < Decimal(keys[j])
  {
    KeySlotBetween(keys, k);
    if p < j {
      assert IsArrayIndex(keys[p]);
    }
  }

  /** Adding a key that is not there yet keeps the keys distinct. */
  lemma AddKeyDistinct(keys: seq<string>, k: string)
    requires forall i, j :: 0 <= i < j < |keys| ==> keys[i] != keys[j]
    requires k !in keys
    ensures var r := AddKey(keys, k);
      forall i, j :: 0 <= i < j < |r| ==> r[i] != r[j]
  {
    AddKeyAtSlot(keys, k);
    var p := KeySlot(keys, k);
    var r := AddKey(keys, k);
    assert forall i :: 0 <= i < p ==> r[i] == keys[i];
    assert forall i :: p < i < |r| ==> r[i] == keys[i - 1];
  }

  /** The keys with a new key added name the screens with that screen added,
      and no others. */
  lemma AddKeyNamed(keys: seq<string>, screens: map<string, Screen>, k: string, s: Screen)
    requires KeysNamed(keys, screens) && (forall m :: m in screens ==> m in keys)
    ensures KeysNamed(AddKey(keys, k), screens[k := s])
    ensures forall m :: m in screens[k := s] ==> m in AddKey(keys, k)
  {
    var p := KeySlot(keys, k);
    var r := AddKey(keys, k);
    forall i | 0 <= i < |r|
      ensures r[i] in screens[k := s]
    {
      AddKeyPlaces(keys, k, i);
    }
    forall m | m in screens[k := s]
      ensures m in r
    {
      if m != k {
        var i :| 0 <= i < |keys| && keys[i] == m;
        if i < p {
          AddKeyPlaces(keys, k, i);
        } else {
          AddKeyPlaces(keys, k, i + 1);
        }
      } else {
        AddKeyPlaces(keys, k, p);
      }
    }
  }

  /** A folder named with digits only is an array index, so its screen is
      visited before "main". */
  lemma DigitKeyGoesFirst()
    ensures AddKey(["main", "options", "info", "channels"], "1999") == ["1999", "main", "options", "info", "channels"]
  {
    var k := "1999";
    assert k[..|k| - 1] == "199" && "199"[..2] == "19" && "19"[..1] == "1" && "1"[..0] == "";
    assert Decimal(k) == 1999;
    assert IsArrayIndex(k);
    assert !IsArrayIndex("main");
  }

  // ---------------------------------------------------------------------------
  // The screens in key order
  // ---------------------------------------------------------------------------

  /** Every key names a screen. */
  predicate KeysNamed(keys: seq<string>, screens: map<string, Screen>) {
    forall i :: 0 <= i < |keys| ==> keys[i] in screens
  }

  /** The screen at position `j` has an item targeting `m`. */
  predicate ListsAt(keys: seq<string>, screens: map<string, Screen>, j: int, m: string)
    requires KeysNamed(keys, screens)
  {
    0 <= j < |keys| && FindIndex(screens[keys[j]].items, TargetOf(m)) >= 0
  }

  /** The `for (const key in menuStructure)` search from position `i` on: the
      position of the first screen with an item targeting `m`, or -1. */
  function ParentIndex(keys: seq<string>, screens: map<string, Screen>, m: string, i: nat): (p: int)
    requires i <= |keys| && KeysNamed(keys, screens)
    ensures p == -1 || (i <= p < |keys| && ListsAt(keys, screens, p, m))
    ensures forall j :: i <= j < |keys| && (p < 0 || j < p) ==> !ListsAt(keys, screens, j, m)
    decreases |keys| - i
  {
    if i == |keys| then -1
    else if FindIndex(screens[keys[i]].items, TargetOf(m)) >= 0 then i
    else ParentIndex(keys, screens, m, i + 1)
  }

  /** The parent of `m`: the first screen listing it. */
  function Parent(keys: seq<string>, screens: map<string, Screen>, m: string): Option<string>
    requires KeysNamed(keys, screens)
  {
    var p := ParentIndex(keys, screens, m, 0);
    if p < 0 then None else Some(keys[p])
  }

  /** Where ArrowLeft goes from `m`: its parent, or "main" when no screen lists it. */
  function BackTarget(keys: seq<string>, screens: map<string, Screen>, m: string): string
    requires KeysNamed(keys, screens)
  {
    match Parent(keys, screens, m)
    case None => "main"
    case Some(p) => p
  }

  /** ArrowLeft outside video mode: nothing at "main"; elsewhere a switch to the
      parent, or to "main" when no screen lists the current one. */
  function Back(keys: seq<string>, screens: map<string, Screen>, nav: Nav): Nav
    requires KeysNamed(keys, screens)
  {
    if nav.menu == "main" then nav else SwitchTo(nav, BackTarget(keys, screens, nav.menu))
  }

  /** ArrowLeft lands on the first screen, in key order, that lists the one
      left; on "main" when none does; and changes nothing on "main". */
  lemma BackGoesToFirstParent(keys: seq<string>, screens: map<string, Screen>, nav: Nav)
    requires KeysNamed(keys, screens)
    ensures nav.menu == "main" ==> Back(keys, screens, nav) == nav
    ensures nav.menu != "main" ==>
      var r := Back(keys, screens, nav);
      r.history == nav.history[nav.menu := nav.index]
      && (r.menu == "main"
          || exists j :: ListsAt(keys, screens, j, nav.menu) && keys[j] == r.menu
                         && forall j' :: 0 <= j' < j ==> !ListsAt(keys, screens, j', nav.menu))
      && ((forall j :: 0 <= j < |keys| ==> !ListsAt(keys, screens, j, nav.menu)) ==> r.menu == "main")
  {
    if nav.menu != "main" {
      var p := ParentIndex(keys, screens, nav.menu, 0);
      if p >= 0 {
        assert ListsAt(keys, screens, p, nav.menu);
      }
    }
  }

  /** Two screens that are each other's parent: the walk up from either never
      reaches "main", so it does not stop within any number of steps. */
  lemma {:induction false} ParentCycle(keys: seq<string>, screens: map<string, Screen>, a: string, b: string, fuel: nat)
    requires KeysNamed(keys, screens) && a != "main" && b != "main"
    requires Parent(keys, screens, a) == Some(b) && Parent(keys, screens, b) == Some(a)
    ensures PathTo(keys, screens, a, fuel) == None
    decreases fuel
  {
    if fuel > 0 {
      ParentCycle(keys, screens, b, a, fuel - 1);
    }
  }

  /** In closed screens no item targets a key that names no screen. */
  lemma NotListedOutside(screens: map<string, Screen>, m: string, t: string)
    requires Closed(screens) && m in screens && t !in screens
    ensures FindIndex(screens[m].items, TargetOf(t)) == -1
  {
    var items := screens[m].items;
    forall j | 0 <= j < |items|
      ensures !Matches(items[j], TargetOf(t))
    {
      if items[j].action.Navigate? {
        assert items[j].action.target in screens;
      }
    }
  }

  // ---------------------------------------------------------------------------
  // The hash path of a screen
  // ---------------------------------------------------------------------------

  /** `p` with `suffix` after it, if the walk produced a path. */
  function Append(p: Option<seq<string>>, suffix: seq<string>): Option<seq<string>> {
    match p
    case None => None
    case Some(path) => Some(path + suffix)
  }

  /** The walk of `updateMenuPath` from `m` towards "main": the screens passed, root
      first. It stops at "main" or at a screen nothing lists; `None` when it has not
      stopped within `fuel` steps, which only a cycle of parents causes. */
  function PathTo(keys: seq<string>, screens: map<string, Screen>, m: string, fuel: nat): Option<seq<string>>
    requires KeysNamed(keys, screens)
    decreases fuel
  {
    if m == "main" then Some([])
    else if fuel == 0 then None
    else
      var p := ParentIndex(keys, screens, m, 0);
      if p < 0 then Some([m]) else Append(PathTo(keys, screens, keys[p], fuel - 1), [m])
  }

  /** The path ends with the screen it was built for, never passes "main", its first
      screen is listed by "main" or by nothing, and each later screen's parent is the
      one before it. */
  lemma {:induction false} PathToShape(keys: seq<string>, screens: map<string, Screen>, m: string, fuel: nat)
    requires KeysNamed(keys, screens)
    requires m != "main" && PathTo(keys, screens, m, fuel).Some?
    ensures var path := PathTo(keys, screens, m, fuel).value;
      |path| >= 1 && path[|path| - 1] == m
      && (forall i :: 0 <= i < |path| ==> path[i] != "main")
      && (Parent(keys, screens, path[0]) == None || Parent(keys, screens, path[0]) == Some("main"))
      && (forall i :: 1 <= i < |path| ==> Parent(keys, screens, path[i]) == Some(path[i - 1]))
    decreases fuel
  {
    var p := ParentIndex(keys, screens, m, 0);
    var path := PathTo(keys, screens, m, fuel).value;
    if p < 0 {
      assert path == [m];
    } else if keys[p] == "main" {
      assert path == [m];
    } else {
      PathToShape(keys, screens, keys[p], fuel - 1);
      var up := PathTo(keys, screens, keys[p], fuel - 1).value;
      assert path == up + [m];
      assert Parent(keys, screens, m) == Some(keys[p]);
      forall i | 1 <= i < |path|
        ensures Parent(keys, screens, path[i]) == Some(path[i - 1])
      {
        if i < |up| {
          assert path[i] == up[i] && path[i - 1] == up[i - 1];
        }
      }
    }
  }

  /** `"#" + menuPath.join("/")`, with `"/" + encode(video)` after it when a video
      title is given; "" on "main". `None` when the walk does not stop. */
  function MenuUrl(keys: seq<string>, screens: map<string, Screen>, current: string, video: string,
                   encode: string -> string): Option<string>
    requires KeysNamed(keys, screens)
  {
    if current == "main" then Some("")
    else
      match PathTo(keys, screens, current, |keys| + 1)
      case None => None
      case Some(path) => Some("#" + Join(path, "/") + (if video != "" then "/" + encode(video) else ""))
  }

  /** On "main" the path is empty and no video title is added; elsewhere it is the
      hash of the walk's screens joined by "/", then the encoded title if any. */
  lemma MenuUrlShape(keys: seq<string>, screens: map<string, Screen>, current: string, video: string,
                     encode: string -> string)
    requires KeysNamed(keys, screens)
    ensures current == "main" ==> MenuUrl(keys, screens, current, video, encode) == Some("")
    ensures current != "main" && MenuUrl(keys, screens, current, video, encode).Some? ==>
      var url := MenuUrl(keys, screens, current, video, encode).value;
      StartsWith(url, "#")
      && (video == "" ==> url == "#" + Join(PathTo(keys, screens, current, |keys| + 1).value, "/"))
      && (video != "" ==> EndsWith(url, "/" + encode(video)))
  {
  }

  /** The URL `history.replaceState` receives: `path || "#"`. */
  function UrlWritten(path: string): string {
    if path == "" then "#" else path
  }

  // ---------------------------------------------------------------------------
  // The walk a hash path describes
  // ---------------------------------------------------------------------------

  /** Every navigate item targets a screen. */
  predicate Closed(screens: map<string, Screen>) {
    forall k, i :: k in screens && 0 <= i < |screens[k].items| && screens[k].items[i].action.Navigate?
      ==> screens[k].items[i].action.target in screens
  }

  /** Where the loop of `parseUrlAndNavigate` ends: whether every segment was
      followed, the screen reached, the saved selections, and the title of a video
      named by the last segment. */
  datatype Walk = Walk(valid: bool, menu: string, history: map<string, int>, video: Option<string>)

  /** The loop from segment `i` on, standing on screen `cur`. The last segment may
      name a "play" item of `cur`; otherwise each segment must be the target of a
      navigate item of `cur`, whose position is saved as `cur`'s selection before
      moving on. */
  function WalkFrom(screens: map<string, Screen>, segs: seq<string>, i: nat, cur: string,
                    history: map<string, int>): (w: Walk)
    requires i <= |segs| && cur in screens && Closed(screens)
    ensures w.menu in screens
    decreases |segs| - i
  {
    if i == |segs| then Walk(true, cur, history, None)
    else if i == |segs| - 1 && FindIndex(screens[cur].items, PlayLabelled(segs[i])) >= 0 then
      Walk(true, cur, history, Some(segs[i]))
    else
      var k := FindIndex(screens[cur].items, TargetOf(segs[i]));
      if k < 0 then Walk(false, cur, history, None)
      else WalkFrom(screens, segs, i + 1, segs[i], history[cur := k])
  }

  /** The segments `parseUrlAndNavigate` accepts from screen `from`: each names the
      target of a navigate item of the screen before it, except that the last may
      instead name a "play" item there. */
  predicate Follows(screens: map<string, Screen>, segs: seq<string>, from: string)
    requires from in screens && Closed(screens)
    decreases |segs|
  {
    |segs| == 0
    || (|segs| == 1 && FindIndex(screens[from].items, PlayLabelled(segs[0])) >= 0)
    || (var k := FindIndex(screens[from].items, TargetOf(segs[0]));
        k >= 0 && Follows(screens, segs[1..], segs[0]))
  }

  /** The walk accepts exactly the segment lists that follow the screens' items. */
  lemma {:induction false} WalkValidIff(screens: map<string, Screen>, segs: seq<string>, i: nat, cur: string,
                                        history: map<string, int>)
    requires i <= |segs| && cur in screens && Closed(screens)
    ensures WalkFrom(screens, segs, i, cur, history).valid <==> Follows(screens, segs[i..], cur)
    decreases |segs| - i
  {
    if i < |segs| {
      var rest := segs[i..];
      assert rest[0] == segs[i] && rest[1..] == segs[i + 1..];
      var k := FindIndex(screens[cur].items, TargetOf(segs[i]));
      if k >= 0 {
        assert screens[cur].items[k].action.target == segs[i];
        WalkValidIff(screens, segs, i + 1, segs[i], history[cur := k]);
      }
    }
  }

  /** A walk that ends without naming a video stands on the last segment; one that
      names a video stands on the screen holding it, whose "play" item has that
      label. */
  lemma {:induction false} WalkEndsOnLastSegment(screens: map<string, Screen>, segs: seq<string>, i: nat,
                                                 cur: string, history: map<string, int>)
    requires i <= |segs| && cur in screens && Closed(screens)
    ensures var w := WalkFrom(screens, segs, i, cur, history);
      (w.valid && w.video.None? && i < |segs| ==> w.menu == segs[|segs| - 1])
      && (w.valid && w.video.None? && i == |segs| ==> w.menu == cur)
      && (w.video.Some? ==> w.valid && i < |segs| && w.video.value == segs[|segs| - 1]
                            && FindIndex(screens[w.menu].items, PlayLabelled(w.video.value)) >= 0)
    decreases |segs| - i
  {
    if i < |segs| {
      var k := FindIndex(screens[cur].items, TargetOf(segs[i]));
      if k >= 0 {
        assert screens[cur].items[k].action.target == segs[i];
        WalkEndsOnLastSegment(screens, segs, i + 1, segs[i], history[cur := k]);
      }
    }
  }

  /** The segments of a hash, each passed through `decodeURIComponent`, when
      every one of them decodes (`decode` gives `None` where it throws). */
  function DecodeAll(segs: seq<string>, decode: string -> Option<string>): (r: seq<string>)
    requires forall j :: 0 <= j < |segs| ==> decode(segs[j]).Some?
    ensures |r| == |segs|
    ensures forall j :: 0 <= j < |segs| ==> decode(segs[j]) == Some(r[j])
  {
    seq(|segs|, j requires 0 <= j < |segs| && decode(segs[j]).Some? => decode(segs[j]).value)
  }

  /** How the loop of `parseUrlAndNavigate` ends: with the walk done, or with
      `decodeURIComponent` throwing on a segment that is not a valid
      percent-encoding, after the selections saved until then. */
  datatype Outcome = Finished(walk: Walk) | Threw(history: map<string, int>)

  /** The loop as the source runs it, from raw segment `i` on: each segment is
      decoded when the loop reaches it, then followed as in `WalkFrom`. */
  function LoopFrom(screens: map<string, Screen>, segs: seq<string>, decode: string -> Option<string>,
                    i: nat, cur: string, history: map<string, int>): (o: Outcome)
    requires i <= |segs| && cur in screens && Closed(screens)
    ensures o.Finished? ==> o.walk.menu in screens
    ensures o.Threw? ==> exists j :: i <= j < |segs| && decode(segs[j]).None?
    decreases |segs| - i
  {
    if i == |segs| then Finished(Walk(true, cur, history, None))
    else match decode(segs[i])
      case None => Threw(history)
      case Some(next) =>
        if i == |segs| - 1 && FindIndex(screens[cur].items, PlayLabelled(next)) >= 0 then
          Finished(Walk(true, cur, history, Some(next)))
        else
          var k := FindIndex(screens[cur].items, TargetOf(next));
          if k < 0 then Finished(Walk(false, cur, history, None))
          else LoopFrom(screens, segs, decode, i + 1, next, history[cur := k])
  }

  /** When every segment decodes, the loop ends as the walk over the decoded
      segments does. */
  lemma {:induction false} LoopDecodesAll(screens: map<string, Screen>, segs: seq<string>,
                                          decode: string -> Option<string>, i: nat, cur: string,
                                          history: map<string, int>)
    requires i <= |segs| && cur in screens && Closed(screens)
    requires forall j :: 0 <= j < |segs| ==> decode(segs[j]).Some?
    ensures LoopFrom(screens, segs, decode, i, cur, history)
            == Finished(WalkFrom(screens, DecodeAll(segs, decode), i, cur, history))
    decreases |segs| - i
  {
    if i < |segs| {
      var d := DecodeAll(segs, decode);
      assert decode(segs[i]) == Some(d[i]);
      var k := FindIndex(screens[cur].items, TargetOf(d[i]));
      if k >= 0 {
        assert screens[cur].items[k].action.target == d[i];
        LoopDecodesAll(screens, segs, decode, i + 1, d[i], history[cur := k]);
      }
    }
  }

  /** A walk that has followed its segments up to `i` and meets one that does
      not decode throws there, keeping the selections saved so far. */
  lemma ThrowsAtBadSegment(screens: map<string, Screen>, segs: seq<string>, decode: string -> Option<string>,
                           i: nat, cur: string, history: map<string, int>)
    requires i < |segs| && cur in screens && Closed(screens) && decode(segs[i]).None?
    ensures LoopFrom(screens, segs, decode, i, cur, history) == Threw(history)
  {
  }

  /** Where `parseUrlAndNavigate` leaves the selection, and the position of the
      video it plays after 100 ms, if any. */
  datatype Landing = Landing(nav: Nav, play: Option<nat>)

  /** The decision after the loop: an invalid path resets to "main" with the first
      item selected; a valid one shows the screen reached unless that is "main", and
      selects and schedules a video named by the last segment when the screen shown
      has one. The selections saved by the loop stay saved either way. */
  function Land(screens: map<string, Screen>, nav: Nav, segs: seq<string>): (r: Landing)
    requires "main" in screens && nav.menu in screens && Closed(screens)
    ensures r.nav.menu in screens
  {
    Settle(screens, nav.menu, nav.index, WalkFrom(screens, segs, 0, "main", nav.history))
  }

  /** The decision after the walk `w`, from screen `menu` with selection `index`. */
  function Settle(screens: map<string, Screen>, menu: string, index: int, w: Walk): (r: Landing)
    requires "main" in screens && menu in screens && w.menu in screens
    ensures r.nav.menu in screens
  {
    if !w.valid then Landing(Nav("main", 0, w.history), None)
    else
      var menu := if w.menu != "main" then w.menu else menu;
      var index := if w.menu != "main" then Restore(w.history, w.menu) else index;
      if w.video.Some? && w.video.value != "" then
        var k := FindIndex(screens[menu].items, PlayLabelled(w.video.value));
        if k >= 0 then Landing(Nav(menu, k, w.history), Some(k))
        else Landing(Nav(menu, index, w.history), None)
      else Landing(Nav(menu, index, w.history), None)
  }

  /** A hash path that does not follow the screens' items lands on "main" with the
      first item selected and plays nothing. */
  lemma LandInvalidResets(screens: map<string, Screen>, nav: Nav, segs: seq<string>)
    requires "main" in screens && nav.menu in screens && Closed(screens)
    requires !Follows(screens, segs, "main")
    ensures Land(screens, nav, segs).nav.menu == "main"
    ensures Land(screens, nav, segs).nav.index == 0
    ensures Land(screens, nav, segs).play == None
  {
    WalkValidIff(screens, segs, 0, "main", nav.history);
    assert segs[0..] == segs;
  }

  /** A hash path that follows the screens' items to a screen other than "main",
      without naming a video, shows that screen with its saved selection. */
  lemma LandOnLastSegment(screens: map<string, Screen>, nav: Nav, segs: seq<string>)
    requires "main" in screens && nav.menu in screens && Closed(screens)
    requires Follows(screens, segs, "main")
    requires WalkFrom(screens, segs, 0, "main", nav.history).video.None?
    requires |segs| > 0 && segs[|segs| - 1] != "main"
    ensures var r := Land(screens, nav, segs);
      r.nav.menu == segs[|segs| - 1]
      && r.nav.index == Restore(r.nav.history, segs[|segs| - 1])
      && r.play == None
  {
    WalkValidIff(screens, segs, 0, "main", nav.history);
    assert segs[0..] == segs;
    WalkEndsOnLastSegment(screens, segs, 0, "main", nav.history);
  }

  /** A hash path that follows the screens' items back to "main" (or is empty of
      segments after the `#`) leaves the screen shown and its selection as they
      were. */
  lemma LandOnMainKeepsScreen(screens: map<string, Screen>, nav: Nav, segs: seq<string>)
    requires "main" in screens && nav.menu in screens && Closed(screens)
    requires Follows(screens, segs, "main")
    requires WalkFrom(screens, segs, 0, "main", nav.history).video.None?
    requires |segs| == 0 || segs[|segs| - 1] == "main"
    ensures Land(screens, nav, segs).nav.menu == nav.menu
    ensures Land(screens, nav, segs).nav.index == nav.index
  {
    WalkValidIff(screens, segs, 0, "main", nav.history);
    assert segs[0..] == segs;
    WalkEndsOnLastSegment(screens, segs, 0, "main", nav.history);
  }

  /** A last segment naming a video of the screen reached selects that video's
      position and schedules it, when the screen reached is the one shown. */
  lemma LandSelectsVideo(screens: map<string, Screen>, nav: Nav, segs: seq<string>)
    requires "main" in screens && nav.menu in screens && Closed(screens)
    requires var w := WalkFrom(screens, segs, 0, "main", nav.history);
      w.video.Some? && w.video.value != "" && w.menu != "main"
    ensures var r := Land(screens, nav, segs);
      r.play.Some? && r.nav.index == r.play.value
      && r.nav.menu == WalkFrom(screens, segs, 0, "main", nav.history).menu
      && Matches(screens[r.nav.menu].items[r.play.value], PlayLabelled(segs[|segs| - 1]))
  {
    WalkEndsOnLastSegment(screens, segs, 0, "main", nav.history);
  }

  /** The screen a path segment is reached from: "main" for the first. */
  function Before(path: seq<string>, i: int): string
    requires 0 <= i <= |path|
  {
    if i == 0 then "main" else path[i - 1]
  }

  /** Each segment is the target of a navigate item of the screen before it. */
  predicate Linked(screens: map<string, Screen>, path: seq<string>) {
    forall i :: 0 <= i < |path| ==>
      Before(path, i) in screens && FindIndex(screens[Before(path, i)].items, TargetOf(path[i])) >= 0
  }

  /** Along linked segments, whose last names no video of the screen before it,
      the walk goes to the end and stands on the last segment. */
  lemma {:induction false} WalkAlongLinks(screens: map<string, Screen>, path: seq<string>, i: nat,
                                          history: map<string, int>)
    requires Closed(screens) && "main" in screens && |path| >= 1 && i <= |path|
    requires Linked(screens, path)
    requires FindIndex(screens[Before(path, |path| - 1)].items, PlayLabelled(path[|path| - 1])) < 0
    ensures Before(path, i) in screens
    ensures var w := WalkFrom(screens, path, i, Before(path, i), history);
      w.valid && w.video.None? && w.menu == path[|path| - 1]
    decreases |path| - i
  {
    if i == |path| {
      var k := FindIndex(screens[Before(path, i - 1)].items, TargetOf(path[i - 1]));
      assert screens[Before(path, i - 1)].items[k].action.target == path[i - 1];
    } else {
      var cur := Before(path, i);
      var k := FindIndex(screens[cur].items, TargetOf(path[i]));
      assert screens[cur].items[k].action.target == path[i];
      assert Before(path, i + 1) == path[i];
      if i == |path| - 1 {
        assert FindIndex(screens[cur].items, PlayLabelled(path[i])) < 0;
      }
      assert WalkFrom(screens, path, i, cur, history) == WalkFrom(screens, path, i + 1, path[i], history[cur := k]);
      WalkAlongLinks(screens, path, i + 1, history[cur := k]);
    }
  }

  /** The hash `updateMenuPath` writes for a screen leads `parseUrlAndNavigate`
      back to that screen, when the walk up ended at "main", no segment holds a
      "/" or changes under decoding, and no screen listing the screen also has a
      video named like it. The hash is read back as written. */
  lemma UrlRoundTrip(keys: seq<string>, screens: map<string, Screen>, nav: Nav, current: string,
                     encode: string -> string, decode: string -> Option<string>)
    requires KeysNamed(keys, screens) && "main" in screens && Closed(screens) && nav.menu in screens
    requires current != "main" && PathTo(keys, screens, current, |keys| + 1).Some?
    requires var path := PathTo(keys, screens, current, |keys| + 1).value;
      |path| >= 1 && Parent(keys, screens, path[0]) == Some("main")
      && forall i :: 0 <= i < |path| ==> '/' !in path[i] && decode(path[i]) == Some(path[i])
    requires forall q :: q in screens && FindIndex(screens[q].items, TargetOf(current)) >= 0
                         ==> FindIndex(screens[q].items, PlayLabelled(current)) < 0
    ensures MenuUrl(keys, screens, current, "", encode).Some?
    ensures var url := MenuUrl(keys, screens, current, "", encode).value;
      |url| >= 1
      && var o := LoopFrom(screens, Split(url[1..], '/'), decode, 0, "main", nav.history);
      o.Finished? && Settle(screens, nav.menu, nav.index, o.walk).nav.menu == current
  {
    var path := PathTo(keys, screens, current, |keys| + 1).value;
    var url := MenuUrl(keys, screens, current, "", encode).value;
    UrlSegments(keys, screens, current, encode, decode);
    PathIsLinked(keys, screens, current, path);
    LoopAlongUrl(screens, nav, path, url, decode, current);
  }

  /** `LoopAlongLinks` for the segments of a hash. */
  lemma LoopAlongUrl(screens: map<string, Screen>, nav: Nav, path: seq<string>, url: string,
                     decode: string -> Option<string>, current: string)
    requires Closed(screens) && "main" in screens && nav.menu in screens && |path| >= 1
    requires Linked(screens, path) && path[|path| - 1] == current && current != "main"
    requires forall q :: q in screens && FindIndex(screens[q].items, TargetOf(current)) >= 0
                         ==> FindIndex(screens[q].items, PlayLabelled(current)) < 0
    requires forall i :: 0 <= i < |path| ==> '/' !in path[i] && decode(path[i]) == Some(path[i])
    requires |url| >= 1 && Split(url[1..], '/') == path
    ensures var o := LoopFrom(screens, Split(url[1..], '/'), decode, 0, "main", nav.history);
      o.Finished? && Settle(screens, nav.menu, nav.index, o.walk).nav.menu == current
  {
    var n := |path| - 1;
    assert FindIndex(screens[Before(path, n)].items, TargetOf(path[n])) >= 0;
    LoopAlongLinks(screens, nav, path, decode);
  }

  /** Linked segments that decode to themselves, the last naming no video of
      the screen before it, lead the loop to the last segment. */
  lemma LoopAlongLinks(screens: map<string, Screen>, nav: Nav, path: seq<string>, decode: string -> Option<string>)
    requires Closed(screens) && "main" in screens && nav.menu in screens && |path| >= 1
    requires Linked(screens, path) && path[|path| - 1] != "main"
    requires FindIndex(screens[Before(path, |path| - 1)].items, PlayLabelled(path[|path| - 1])) < 0
    requires forall j :: 0 <= j < |path| ==> decode(path[j]) == Some(path[j])
    ensures var o := LoopFrom(screens, path, decode, 0, "main", nav.history);
      o.Finished? && Settle(screens, nav.menu, nav.index, o.walk).nav.menu == path[|path| - 1]
  {
    WalkAlongLinks(screens, path, 0, nav.history);
    LoopDecodesAll(screens, path, decode, 0, "main", nav.history);
    assert DecodeAll(path, decode) == path;
  }

  /** The segments read back from the hash written for a screen are its path,
      and each decodes to itself, when no segment holds a "/" or changes under
      decoding. */
  lemma UrlSegments(keys: seq<string>, screens: map<string, Screen>, current: string,
                    encode: string -> string, decode: string -> Option<string>)
    requires KeysNamed(keys, screens)
    requires current != "main" && PathTo(keys, screens, current, |keys| + 1).Some?
    requires var path := PathTo(keys, screens, current, |keys| + 1).value;
      forall i :: 0 <= i < |path| ==> '/' !in path[i] && decode(path[i]) == Some(path[i])
    ensures MenuUrl(keys, screens, current, "", encode).Some?
    ensures var url := MenuUrl(keys, screens, current, "", encode).value;
      var path := PathTo(keys, screens, current, |keys| + 1).value;
      |url| >= 1 && Split(url[1..], '/') == path
      && (forall j :: 0 <= j < |path| ==> decode(path[j]).Some?)
      && DecodeAll(path, decode) == path
  {
    var path := PathTo(keys, screens, current, |keys| + 1).value;
    var url := MenuUrl(keys, screens, current, "", encode).value;
    assert url == "#" + Join(path, "/");
    assert url[1..] == Join(path, "/");
    SplitJoin(path, '/');
    assert DecodeAll(path, decode) == path;
  }

  /** The path walked up from a screen to "main" is linked from "main" down, and
      ends on the screen. */
  lemma PathIsLinked(keys: seq<string>, screens: map<string, Screen>, current: string, path: seq<string>)
    requires KeysNamed(keys, screens)
    requires current != "main" && PathTo(keys, screens, current, |keys| + 1) == Some(path)
    requires |path| >= 1 && Parent(keys, screens, path[0]) == Some("main")
    ensures Linked(screens, path) && path[|path| - 1] == current
    ensures Before(path, |path| - 1) in screens
    ensures FindIndex(screens[Before(path, |path| - 1)].items, TargetOf(current)) >= 0
  {
    PathToShape(keys, screens, current, |keys| + 1);
    forall i | 0 <= i < |path|
      ensures Before(path, i) in screens && FindIndex(screens[Before(path, i)].items, TargetOf(path[i])) >= 0
    {
      var p := ParentIndex(keys, screens, path[i], 0);
      if i == 0 {
        assert Parent(keys, screens, path[0]) == Some("main");
      } else {
        assert Parent(keys, screens, path[i]) == Some(path[i - 1]);
      }
      assert p >= 0 && keys[p] == Before(path, i);
      assert ListsAt(keys, screens, p, path[i]);
    }
  }

  // ---------------------------------------------------------------------------
  // Keys, labels and paths
  // ---------------------------------------------------------------------------

  /** The two `menu.js` modules: the Electron renderer's and the older browser one. */
  datatype Variant = Renderer | Legacy

  /** Which branch of the keydown handler a key takes. `Ignored` is the early
      return for the video's own escape handler; `Unhandled` runs no case. */
  datatype Handler =
    | Ignored | FullscreenKey | ShaderKey | SelectUp | SelectDown | BackKey | Activate
    | MediaControl | Unhandled

  /** The switch over `event.key`, with the early return in video mode and the
      fall-through from ArrowRight to Enter. The renderer's handler also leaves "q"
      to the video while one plays; the older one only Escape. */
  function Route(variant: Variant, videoPlaying: bool, key: string): Handler {
    if videoPlaying && (key == "Escape" || (variant == Renderer && key == "q")) then Ignored
    else if key == "f" then FullscreenKey
    else if key == "s" then ShaderKey
    else if key == "ArrowUp" then (if videoPlaying then MediaControl else SelectUp)
    else if key == "ArrowDown" then (if videoPlaying then MediaControl else SelectDown)
    else if key == "ArrowLeft" then (if videoPlaying then MediaControl else BackKey)
    else if key == "ArrowRight" then (if videoPlaying then MediaControl else Activate)
    else if key == "Enter" || key == "Space" then Activate
    else Unhandled
  }

  /** Outside video mode ArrowRight does what Enter does; during a video it seeks. */
  lemma ArrowRightFallsThrough(variant: Variant, videoPlaying: bool)
    ensures !videoPlaying ==> Route(variant, videoPlaying, "ArrowRight") == Route(variant, videoPlaying, "Enter")
    ensures videoPlaying ==> Route(variant, videoPlaying, "ArrowRight") == MediaControl
    ensures Route(variant, videoPlaying, "Enter") == Activate
  {
  }

  /** During a video, Escape is left to the video in both modules; "q" only in the
      renderer's, while the older handler runs no case for it. Outside a video
      neither is handled. */
  lemma VideoKeysLeftToVideo(variant: Variant, videoPlaying: bool)
    ensures Route(variant, videoPlaying, "Escape") == (if videoPlaying then Ignored else Unhandled)
    ensures Route(variant, videoPlaying, "q") ==
      (if videoPlaying && variant == Renderer then Ignored else Unhandled)
  {
  }

  /** The label the SHADERS item shows for a state. */
  function ShaderLabel(on: bool): string {
    if on then "SHADERS: ON" else "SHADERS: OFF"
  }

  /** The label reads "SHADERS: ON" exactly for the state on. */
  lemma ShaderLabelShowsState(on: bool)
    ensures (ShaderLabel(on) == "SHADERS: ON") == on
  {
    if !on {
      assert ShaderLabel(on)[10] != "SHADERS: ON"[10];
    }
  }

  /** `String(b)` */
  function BoolString(b: bool): string {
    if b then "true" else "false"
  }

  /** The label `toggleFullScreen` writes, read before the browser has switched. */
  function FullscreenLabel(fullscreenNow: bool): string {
    if fullscreenNow then "FULLSCREEN: OFF" else "FULLSCREEN: ON"
  }

  /** The screen with item `k` renamed. */
  function Relabel(s: Screen, k: nat, text: string): (r: Screen)
    requires k < |s.items|
    ensures r.header == s.header && |r.items| == |s.items|
    ensures r.items[k] == Item(text, s.items[k].action)
    ensures forall j :: 0 <= j < |s.items| && j != k ==> r.items[j] == s.items[j]
  {
    Screen(s.header, s.items[k := Item(text, s.items[k].action)])
  }

  /** The first item of screen `m` that matches `q` renamed, when there is one. */
  function RelabelFirst(screens: map<string, Screen>, m: string, q: Query, text: string): map<string, Screen>
    requires m in screens
  {
    var k := FindIndex(screens[m].items, q);
    if k < 0 then screens else screens[m := Relabel(screens[m], k, text)]
  }

  /** Renaming an item keeps the screens, their lengths, and every action. */
  lemma RelabelFirstKeeps(screens: map<string, Screen>, m: string, q: Query, text: string)
    requires m in screens
    ensures var r := RelabelFirst(screens, m, q, text);
      r.Keys == screens.Keys
      && (forall k :: k in r ==> |r[k].items| == |screens[k].items|)
      && (forall k, i :: k in r && 0 <= i < |r[k].items| ==> r[k].items[i].action == screens[k].items[i].action)
      && (Closed(screens) ==> Closed(r))
  {
  }

  /** After the first SHADERS item of a screen is relabelled for `on`, the first
      SHADERS item is still at the same place and its label shows `on`. */
  lemma RelabelShaderShows(screens: map<string, Screen>, m: string, on: bool)
    requires m in screens
    ensures var q := StatesInclude("SHADERS: ON");
      var r := RelabelFirst(screens, m, q, ShaderLabel(on));
      var k := FindIndex(r[m].items, q);
      k == FindIndex(screens[m].items, q)
      && (k >= 0 ==> (r[m].items[k].text == "SHADERS: ON") == on)
  {
    var q := StatesInclude("SHADERS: ON");
    var k := FindIndex(screens[m].items, q);
    if k >= 0 {
      FindIndexIgnoresText(screens[m], k, ShaderLabel(on), q);
      ShaderLabelShowsState(on);
    }
  }

  /** The path a "play" item hands to `playVideo`: the item's own in the renderer,
      `channels/<screen>/<video>` in the older module. */
  function PlayPath(variant: Variant, menu: string, video: string): string {
    match variant
    case Renderer => video
    case Legacy => "channels/" + menu + "/" + video
  }

  /** The header of a channel screen. */
  function ChannelHeader(name: string): string {
    "------- " + ToUpper(name) + " -------"
  }

  /** The position `splice(start, 0, x)` inserts at: a negative start counts back
      from the end, and the result is clamped to the list. */
  function SpliceStart(start: int, len: nat): (k: nat)
    ensures k <= len
    ensures 0 <= start <= len ==> k == start
    ensures start < 0 && len + start >= 0 ==> k == len + start
  {
    if start < 0 then (if len + start < 0 then 0 else len + start)
    else if start > len then len
    else start
  }

  /** `s` with `x` inserted at position `k`. */
  function Insert(s: seq<Item>, k: nat, x: Item): (r: seq<Item>)
    requires k <= |s|
    ensures |r| == |s| + 1 && r[k] == x
    ensures r[..k] == s[..k] && r[k + 1..] == s[k..]
  {
    s[..k] + [x] + s[k..]
  }

  /** Every item after an insertion is the inserted one or an item that was there. */
  lemma InsertedFrom(s: seq<Item>, k: nat, x: Item)
    requires k <= |s|
    ensures forall i :: 0 <= i < |s| + 1 ==> Insert(s, k, x)[i] == x || Insert(s, k, x)[i] in s
  {
    var r := Insert(s, k, x);
    forall i | 0 <= i < |r| && i != k ensures r[i] in s {
      if i < k {
        assert r[i] == r[..k][i] == s[..k][i];
      } else {
        assert r[i] == r[k + 1..][i - k - 1] == s[k..][i - k - 1];
      }
    }
  }

  /** A file extension starts at `k`: a dot followed, up to the end, by at least one
      character that is neither a dot nor a slash. */
  predicate ExtensionAt(name: string, k: int) {
    0 <= k < |name| - 1 && name[k] == '.'
    && forall j :: k < j < |name| ==> name[j] != '.' && name[j] != '/'
  }

  /** The position of the last dot, or -1. */
  function LastDot(name: string): (k: int)
    ensures -1 <= k < |name|
    ensures k >= 0 ==> name[k] == '.'
    ensures forall j :: k < j < |name| ==> name[j] != '.'
    decreases |name|
  {
    if |name| == 0 then -1
    else if name[|name| - 1] == '.' then |name| - 1
    else LastDot(name[..|name| - 1])
  }

  /** `name.replace(/\.[^/.]+$/, "")`: the name without its extension, if it has
      one. */
  function StripExtension(name: string): (r: string)
    ensures (exists k :: ExtensionAt(name, k)) ==> ExtensionAt(name, |r|) && r == name[..|r|]
    ensures (forall k :: !ExtensionAt(name, k)) ==> r == name
  {
    var k := LastDot(name);
    if k >= 0 && k < |name| - 1 && (forall j :: k < j < |name| ==> name[j] != '/') then
      assert ExtensionAt(name, k);
      name[..k]
    else
      LastDotIsOnlyExtension(name);
      name
  }

  /** An extension can only start at the last dot. */
  lemma LastDotIsOnlyExtension(name: string)
    ensures forall k :: ExtensionAt(name, k) ==> k == LastDot(name)
  {
    var d := LastDot(name);
    forall k | ExtensionAt(name, k) ensures k == d {
      assert name[k] == '.';
    }
  }
}
