/** The Loopora session hook inside the user's own Claude settings: merging it in, taking it out. */
module HostConfig {
  import opened PyText

  /** The number of binary digits. */
  function Bits(n: nat): nat {
    if n == 0 then 0 else 1 + Bits(n / 2)
  }

  /** A binary number, `mantissa` times a power of two, or an infinity. */
  datatype Binary = Finite(negative: bool, mantissa: nat, exponent: int) | Infinite(negative: bool)

  /** The numbers of 64 bits of IEEE 754, each in one form: an odd mantissa, or zero. */
  type Double = x: Binary |
      x.Finite? ==>
        if x.mantissa == 0 then x.exponent == 0
        else x.mantissa % 2 == 1 && Bits(x.mantissa) <= 53 && -1074 <= x.exponent <= 1024 - Bits(x.mantissa)
    witness Finite(false, 0, 0)

  datatype Json =
    | Null
    | Bool(b: bool)
    | Int(i: int)
    | Float(x: Double)
    | Str(s: string)
    | List(items: seq<Json>)
    | Obj(fields: map<string, Json>)

  type Settings = map<string, Json>

  datatype Result<+T> = Ok(value: T) | Conflict

  const HOOK_PATH := "$CLAUDE_PROJECT_DIR/.claude/hooks/loopora-session-context.py"
  const COMMAND := "python3 " + "\"" + HOOK_PATH + "\""

  const HANDLER := Obj(map["type" := Str("command"), "command" := Str(COMMAND), "timeout" := Int(5)])

  const GROUP := Obj(map["matcher" := Str("startup|resume|clear|compact"), "hooks" := List([HANDLER])])

  predicate IsLoopora(handler: Json) {
    && handler.Obj? && "command" in handler.fields
    && handler.fields["command"].Str? && Strip(handler.fields["command"].s) == COMMAND
  }

  /** An object whose `command` is a text that, trimmed, is the hook's command: no other handler is Loopora's. */
  lemma LooporaIs(handler: Json)
    ensures IsLoopora(handler) <==>
      && handler.Obj? && "command" in handler.fields && handler.fields["command"].Str?
      && exists before, after :: Padded(handler.fields["command"].s, before, COMMAND, after)
  {
    assert COMMAND[0] == 'p' && COMMAND[|COMMAND| - 1] == '"';
    if handler.Obj? && "command" in handler.fields && handler.fields["command"].Str? {
      StripIs(handler.fields["command"].s, COMMAND);
    }
  }

  lemma HandlerIsLoopora()
    ensures IsLoopora(HANDLER)
  {
    assert COMMAND[0] == 'p' && COMMAND[|COMMAND| - 1] == '"';
    StrippedIsFixed(COMMAND);
  }

  // ----- Reading the settings -----

  /** A group of handlers, as opposed to an entry of some other shape. */
  predicate IsGroup(g: Json) {
    g.Obj? && "hooks" in g.fields && g.fields["hooks"].List?
  }

  predicate HasGroups(s: Settings) {
    && "hooks" in s && s["hooks"].Obj?
    && "SessionStart" in s["hooks"].fields && s["hooks"].fields["SessionStart"].List?
  }

  function Groups(s: Settings): seq<Json> {
    if HasGroups(s) then s["hooks"].fields["SessionStart"].items else []
  }

  function LooporaCount(handlers: seq<Json>): nat {
    if handlers == [] then 0
    else LooporaCount(handlers[..|handlers| - 1]) + if IsLoopora(handlers[|handlers| - 1]) then 1 else 0
  }

  function LooporaTotal(groups: seq<Json>): nat {
    if groups == [] then 0
    else
      var g := groups[|groups| - 1];
      LooporaTotal(groups[..|groups| - 1]) + if IsGroup(g) then LooporaCount(g.fields["hooks"].items) else 0
  }

  method HasHook(s: Settings) returns (found: bool)
    ensures found <==> LooporaTotal(Groups(s)) > 0
  {
    if !HasGroups(s) {
      return false;
    }
    var groups := Groups(s);
    hide IsLoopora, Groups, HasGroups;
    for i := 0 to |groups|
      invariant LooporaTotal(groups[..i]) == 0
    {
      assert groups[..i + 1][..i] == groups[..i];
      if IsGroup(groups[i]) {
        var handlers := groups[i].fields["hooks"].items;
        for j := 0 to |handlers|
          invariant LooporaCount(handlers[..j]) == 0
        {
          assert handlers[..j + 1][..j] == handlers[..j];
          if IsLoopora(handlers[j]) {
            LooporaCountPrefix(handlers, j + 1);
            LooporaTotalPrefix(groups, i + 1);
            return true;
          }
        }
        assert handlers[..|handlers|] == handlers && LooporaCount(handlers) == 0;
      }
      assert LooporaTotal(groups[..i + 1]) == 0;
    }
    assert groups[..|groups|] == groups;
    return false;
  }

  lemma {:induction false} LooporaCountPrefix(handlers: seq<Json>, n: nat)
    requires n <= |handlers|
    ensures LooporaCount(handlers[..n]) <= LooporaCount(handlers)
    decreases |handlers|
  {
    if n < |handlers| {
      LooporaCountPrefix(handlers[..|handlers| - 1], n);
      assert handlers[..|handlers| - 1][..n] == handlers[..n];
    } else {
      assert handlers[..n] == handlers;
    }
  }

  lemma {:induction false} LooporaTotalPrefix(groups: seq<Json>, n: nat)
    requires n <= |groups|
    ensures LooporaTotal(groups[..n]) <= LooporaTotal(groups)
    decreases |groups|
  {
    if n < |groups| {
      LooporaTotalPrefix(groups[..|groups| - 1], n);
      assert groups[..|groups| - 1][..n] == groups[..n];
    } else {
      assert groups[..n] == groups;
    }
  }

  /** Handler j of group i is Loopora's. */
  ghost predicate LooporaAt(groups: seq<Json>, i: nat, j: nat) {
    && i < |groups| && IsGroup(groups[i])
    && j < |groups[i].fields["hooks"].items| && IsLoopora(groups[i].fields["hooks"].items[j])
  }

  lemma {:induction false} CountFinds(handlers: seq<Json>)
    ensures LooporaCount(handlers) > 0 <==> exists j :: 0 <= j < |handlers| && IsLoopora(handlers[j])
  {
    if handlers != [] {
      CountFinds(handlers[..|handlers| - 1]);
    }
  }

  /** The total is positive exactly when some group has a Loopora handler. */
  lemma {:induction false} TotalFinds(groups: seq<Json>)
    ensures LooporaTotal(groups) > 0 <==> exists i: nat, j: nat :: LooporaAt(groups, i, j)
  {
    if groups != [] {
      var rest, g, n := groups[..|groups| - 1], groups[|groups| - 1], |groups| - 1;
      TotalFinds(rest);
      hide IsLoopora;
      forall i: nat, j: nat | LooporaAt(rest, i, j) ensures LooporaAt(groups, i, j) {
      }
      forall i: nat, j: nat | LooporaAt(groups, i, j) && i < n ensures LooporaAt(rest, i, j) {
      }
      if IsGroup(g) {
        CountFinds(g.fields["hooks"].items);
        forall j: nat | j < |g.fields["hooks"].items| && IsLoopora(g.fields["hooks"].items[j])
          ensures LooporaAt(groups, n, j)
        {
        }
      }
    }
  }

  /** The check made before anything is written. */
  predicate Mergeable(s: Settings) {
    && ("hooks" in s ==> s["hooks"].Null? || s["hooks"].Obj?)
    && ("hooks" in s && s["hooks"].Obj? && "SessionStart" in s["hooks"].fields ==>
          s["hooks"].fields["SessionStart"].Null? || s["hooks"].fields["SessionStart"].List?)
  }

  /** What the merge itself needs: here a JSON null is not as good as an absent key. */
  predicate Writable(s: Settings) {
    "hooks" in s ==>
      s["hooks"].Obj? && ("SessionStart" in s["hooks"].fields ==> s["hooks"].fields["SessionStart"].List?)
  }

  // ----- Taking the hook out -----

  function CleanHandlers(handlers: seq<Json>): (r: seq<Json>) {
    if handlers == [] then []
    else
      var rest, h := CleanHandlers(handlers[..|handlers| - 1]), handlers[|handlers| - 1];
      if IsLoopora(h) then rest else rest + [h]
  }

  /** A group in which removal leaves no handler goes altogether. */
  predicate Dropped(g: Json) {
    IsGroup(g) && CleanHandlers(g.fields["hooks"].items) == []
  }

  function CleanGroup(g: Json): Json {
    if IsGroup(g) then Obj(g.fields["hooks" := List(CleanHandlers(g.fields["hooks"].items))]) else g
  }

  function CleanGroups(groups: seq<Json>): seq<Json> {
    if groups == [] then []
    else
      var rest, g := CleanGroups(groups[..|groups| - 1]), groups[|groups| - 1];
      if Dropped(g) then rest else rest + [CleanGroup(g)]
  }

  /** `SessionStart` goes when no group is left, and `hooks` when nothing is left in it. */
  function WithGroups(s: Settings, groups: seq<Json>): Settings
    requires HasGroups(s)
  {
    var hooks := s["hooks"].fields;
    if groups != [] then s["hooks" := Obj(hooks["SessionStart" := List(groups)])]
    else if hooks - {"SessionStart"} != map[] then s["hooks" := Obj(hooks - {"SessionStart"})]
    else s - {"hooks"}
  }

  function Removed(s: Settings): Settings {
    if HasGroups(s) then WithGroups(s, CleanGroups(Groups(s))) else s
  }

  method RemoveHook(s: Settings) returns (updated: Settings)
    ensures updated == Removed(s)
  {
    updated := s;
    if "hooks" !in updated || !updated["hooks"].Obj? {
      return;
    }
    var hooks := updated["hooks"].fields;
    if "SessionStart" !in hooks || !hooks["SessionStart"].List? {
      return;
    }
    var groups := hooks["SessionStart"].items;
    var cleaned: seq<Json> := [];
    for i := 0 to |groups|
      invariant cleaned == CleanGroups(groups[..i])
    {
      assert groups[..i + 1][..i] == groups[..i];
      var g := groups[i];
      if !IsGroup(g) {
        cleaned := cleaned + [g];
      } else {
        var handlers := CleanHandlers(g.fields["hooks"].items);
        if handlers != [] {
          cleaned := cleaned + [Obj(g.fields["hooks" := List(handlers)])];
        }
      }
    }
    assert groups[..|groups|] == groups;
    assert cleaned == CleanGroups(Groups(s));
    if cleaned != [] {
      hooks := hooks["SessionStart" := List(cleaned)];
      assert "SessionStart" in hooks;
    } else {
      hooks := hooks - {"SessionStart"};
    }
    updated := updated["hooks" := Obj(hooks)];
    if hooks == map[] {
      updated := updated - {"hooks"};
      assert updated == s - {"hooks"};
    }
  }

  // ----- Merging the hook in -----

  function Installed(s: Settings): Result<Settings> {
    var updated := Removed(s);
    var hooks := if "hooks" in updated then updated["hooks"] else Obj(map[]);
    if !hooks.Obj? then Conflict
    else
      var groups := if "SessionStart" in hooks.fields then hooks.fields["SessionStart"] else List([]);
      if !groups.List? then Conflict
      else Ok(updated["hooks" := Obj(hooks.fields["SessionStart" := List(groups.items + [GROUP])])])
  }

  method InstallHook(s: Settings) returns (r: Result<Settings>)
    ensures r == Installed(s)
  {
    var updated := RemoveHook(s);
    if "hooks" !in updated {
      updated := updated["hooks" := Obj(map[])];
    }
    if !updated["hooks"].Obj? {
      return Conflict;
    }
    var hooks := updated["hooks"].fields;
    if "SessionStart" !in hooks {
      hooks := hooks["SessionStart" := List([])];
    }
    if !hooks["SessionStart"].List? {
      return Conflict;
    }
    hooks := hooks["SessionStart" := List(hooks["SessionStart"].items + [GROUP])];
    updated := updated["hooks" := Obj(hooks)];
    assert Installed(s).Ok? && updated == Installed(s).value by {
      assert updated["hooks"] == Installed(s).value["hooks"];
    }
    return Ok(updated);
  }

  /** The merge is refused exactly when the settings are not writable. The check lets two such cases
      pass: a null `hooks` and a null `SessionStart`. */
  lemma InstallRefused(s: Settings)
    ensures Installed(s).Ok? <==> Writable(s)
    ensures Writable(s) ==> Mergeable(s)
    ensures Mergeable(s) && !Writable(s) <==>
      "hooks" in s
      && (s["hooks"].Null? ||
          (s["hooks"].Obj? && "SessionStart" in s["hooks"].fields && s["hooks"].fields["SessionStart"].Null?))
  {
  }

  // ----- What removal leaves -----

  lemma {:induction false} CleanHandlersFacts(handlers: seq<Json>)
    ensures LooporaCount(CleanHandlers(handlers)) == 0
    ensures |CleanHandlers(handlers)| + LooporaCount(handlers) == |handlers|
    ensures LooporaCount(handlers) == 0 ==> CleanHandlers(handlers) == handlers
  {
    if handlers != [] {
      var rest, h := handlers[..|handlers| - 1], handlers[|handlers| - 1];
      CleanHandlersFacts(rest);
      assert handlers == rest + [h];
      if !IsLoopora(h) {
        assert (CleanHandlers(rest) + [h])[..|CleanHandlers(rest)|] == CleanHandlers(rest);
      }
    }
  }

  /** An entry that removal does not touch. */
  predicate CleanEntry(g: Json) {
    IsGroup(g) ==> g.fields["hooks"].items != [] && LooporaCount(g.fields["hooks"].items) == 0
  }

  lemma CleanGroupFacts(g: Json)
    ensures !Dropped(g) ==> CleanEntry(CleanGroup(g))
    ensures CleanEntry(g) ==> !Dropped(g) && CleanGroup(g) == g
    ensures !Dropped(g) && CleanGroup(g) == g ==> CleanEntry(g)
  {
    if IsGroup(g) {
      var handlers := g.fields["hooks"].items;
      CleanHandlersFacts(handlers);
      if CleanHandlers(handlers) == handlers {
        assert g.fields["hooks" := List(handlers)] == g.fields;
      }
    }
  }

  ghost predicate AllClean(groups: seq<Json>) {
    forall i :: 0 <= i < |groups| ==> CleanEntry(groups[i])
  }

  lemma {:induction false} CleanGroupsFacts(groups: seq<Json>)
    ensures AllClean(CleanGroups(groups)) && |CleanGroups(groups)| <= |groups|
    ensures AllClean(groups) ==> CleanGroups(groups) == groups
  {
    if groups != [] {
      var rest, g := groups[..|groups| - 1], groups[|groups| - 1];
      CleanGroupsFacts(rest);
      CleanGroupFacts(g);
      assert groups == rest + [g];
    }
  }

  lemma {:induction false} CleanTotal(groups: seq<Json>)
    requires AllClean(groups)
    ensures LooporaTotal(groups) == 0
  {
    if groups != [] {
      CleanTotal(groups[..|groups| - 1]);
    }
  }

  lemma CleanGroupsTwice(groups: seq<Json>)
    ensures CleanGroups(CleanGroups(groups)) == CleanGroups(groups)
    ensures LooporaTotal(CleanGroups(groups)) == 0
  {
    CleanGroupsFacts(groups);
    CleanGroupsFacts(CleanGroups(groups));
    CleanTotal(CleanGroups(groups));
  }

  /** Removal leaves no Loopora handler, and a second removal finds nothing to do. */
  lemma RemovalIsFinal(s: Settings)
    ensures LooporaTotal(Groups(Removed(s))) == 0
    ensures Removed(Removed(s)) == Removed(s)
  {
    if HasGroups(s) {
      var groups := Groups(s);
      CleanGroupsTwice(groups);
      if CleanGroups(groups) != [] {
        var t := Removed(s);
        assert Groups(t) == CleanGroups(groups);
        assert t["hooks"].fields["SessionStart" := List(CleanGroups(groups))] == t["hooks"].fields;
        assert t["hooks" := t["hooks"]] == t;
      }
    }
  }

  /** Settings that removal returns unchanged. */
  ghost predicate Clean(s: Settings) {
    HasGroups(s) ==> Groups(s) != [] && AllClean(Groups(s))
  }

  lemma RemovalRestores(s: Settings)
    ensures Removed(s) == s <==> Clean(s)
  {
    if HasGroups(s) {
      CleanGroupsFacts(Groups(s));
      CleanGroupsTwice(Groups(s));
      var hooks := s["hooks"].fields;
      if Clean(s) {
        assert hooks["SessionStart" := List(Groups(s))] == hooks;
        assert s["hooks" := Obj(hooks)] == s;
      } else if CleanGroups(Groups(s)) != [] {
        assert Groups(Removed(s)) == CleanGroups(Groups(s));
      } else {
        assert "hooks" in Removed(s) ==> "SessionStart" !in Removed(s)["hooks"].fields;
      }
    }
  }

  // ----- Install, again and undone -----

  lemma AppendGroup(groups: seq<Json>)
    requires AllClean(groups)
    ensures CleanGroups(groups + [GROUP]) == groups
    ensures LooporaTotal(groups + [GROUP]) == 1
  {
    HandlerIsLoopora();
    CleanGroupsFacts(groups);
    CleanTotal(groups);
    var all := groups + [GROUP];
    assert all[..|groups|] == groups;
    assert [HANDLER][..0] == [];
    assert LooporaCount([HANDLER]) == 1 && CleanHandlers([HANDLER]) == [];
  }

  /** After a successful install the hook is there exactly once. */
  lemma InstallLeavesOne(s: Settings)
    requires Writable(s)
    ensures Installed(s).Ok? && HasGroups(Installed(s).value)
    ensures LooporaTotal(Groups(Installed(s).value)) == 1
    ensures Groups(Installed(s).value) == CleanGroups(Groups(s)) + [GROUP]
    ensures Writable(Installed(s).value)
  {
    CleanGroupsFacts(Groups(s));
    AppendGroup(CleanGroups(Groups(s)));
  }

  /** A second install changes nothing. */
  lemma InstallTwice(s: Settings)
    requires Writable(s)
    ensures Installed(Installed(s).value) == Installed(s)
  {
    InstallLeavesOne(s);
    var t := Installed(s).value;
    CleanGroupsFacts(Groups(s));
    AppendGroup(CleanGroups(Groups(s)));
    InstallAgain(t, CleanGroups(Groups(s)));
  }

  lemma InstallAgain(t: Settings, groups: seq<Json>)
    requires HasGroups(t) && Groups(t) == groups + [GROUP] && CleanGroups(Groups(t)) == groups
    ensures Installed(t) == Ok(t)
  {
    var hooks := t["hooks"].fields;
    assert hooks["SessionStart" := List(groups + [GROUP])] == hooks;
    assert t["hooks" := Obj(hooks)] == t;
    var r := Removed(t);
    if groups != [] {
      assert hooks["SessionStart" := List(groups)]["SessionStart" := List(groups + [GROUP])] == hooks;
      assert r["hooks" := Obj(hooks)] == t;
    } else if hooks - {"SessionStart"} != map[] {
      assert (hooks - {"SessionStart"})["SessionStart" := List(groups + [GROUP])] == hooks;
      assert r["hooks" := Obj(hooks)] == t;
    } else {
      assert map["SessionStart" := List(groups + [GROUP])] == hooks;
      assert r["hooks" := Obj(hooks)] == t;
    }
  }

  /** Settings as an install leaves them: the hook once, and nothing a further install would change. */
  ghost predicate Hooked(s: Settings) {
    Writable(s) && LooporaTotal(Groups(s)) == 1 && Installed(s) == Ok(s)
  }

  lemma InstallHooks(s: Settings)
    ensures Installed(s).Ok? ==> Hooked(Installed(s).value)
  {
    InstallRefused(s);
    if Writable(s) {
      InstallLeavesOne(s);
      InstallTwice(s);
    }
  }

  /** Putting `SessionStart` into the hooks of r and taking it out again. */
  lemma UndoMaps(r: Settings, hooks: map<string, Json>, groups: seq<Json>, more: seq<Json>)
    requires hooks == if "hooks" in r then (if r["hooks"].Obj? then r["hooks"].fields else map[]) else map[]
    requires "hooks" in r ==> r["hooks"].Obj?
    requires if groups == [] then "SessionStart" !in hooks
             else "SessionStart" in hooks && hooks["SessionStart"] == List(groups)
    ensures WithGroups(r["hooks" := Obj(hooks["SessionStart" := List(more)])], groups) ==
      if hooks == map[] then r - {"hooks"} else r
  {
    var inner := hooks["SessionStart" := List(more)];
    var t := r["hooks" := Obj(inner)];
    assert t - {"hooks"} == r - {"hooks"};
    if groups != [] {
      assert inner["SessionStart" := List(groups)] == hooks;
    } else {
      assert inner - {"SessionStart"} == hooks;
    }
    if hooks != map[] {
      assert t["hooks" := Obj(hooks)] == r;
    }
  }

  /** Taking the hook out after an install gives what taking it out before would have given, except
      that an empty `hooks` object disappears. */
  lemma RemoveUndoesInstall(s: Settings)
    requires Writable(s)
    ensures Removed(Installed(s).value) ==
      if "hooks" in s && s["hooks"].fields == map[] then s - {"hooks"} else Removed(s)
  {
    InstallLeavesOne(s);
    var groups := CleanGroups(Groups(s));
    CleanGroupsFacts(Groups(s));
    AppendGroup(groups);
    var r := Removed(s);
    var hooks := if "hooks" in r then r["hooks"].fields else map[];
    UndoMaps(r, hooks, groups, groups + [GROUP]);
    assert "hooks" !in r ==> r - {"hooks"} == r;
  }

  /** The settings a user gets back untouched by an install and a removal: there was no `hooks`, or it
      was not empty and its groups were free of Loopora handlers and of empty handler lists. */
  ghost predicate Restorable(s: Settings) {
    "hooks" in s ==> s["hooks"].Obj? && s["hooks"].fields != map[] && Clean(s)
  }

  lemma RoundTrip(s: Settings)
    requires Writable(s)
    ensures Removed(Installed(s).value) == s <==> Restorable(s)
  {
    RemoveUndoesInstall(s);
    RemovalRestores(s);
  }

  // ----- The user's own entries -----

  /** An empty `hooks` object does not come back. */
  lemma EmptyHooksAreLost()
    ensures var s: Settings := map["hooks" := Obj(map[])];
      Writable(s) && !Restorable(s) && Removed(Installed(s).value) == map[]
  {
    var s: Settings := map["hooks" := Obj(map[])];
    RemoveUndoesInstall(s);
    assert s - {"hooks"} == map[];
  }

  /** What the user wrote: other entries, and other handlers with the rest of their group. */
  datatype Item = Entry(entry: Json) | Handler(around: map<string, Json>, handler: Json)

  function HandlerItems(around: map<string, Json>, handlers: seq<Json>): seq<Item> {
    if handlers == [] then []
    else
      var rest, h := HandlerItems(around, handlers[..|handlers| - 1]), handlers[|handlers| - 1];
      if IsLoopora(h) then rest else rest + [Handler(around, h)]
  }

  function UserItems(groups: seq<Json>): seq<Item> {
    if groups == [] then []
    else
      var rest, g := UserItems(groups[..|groups| - 1]), groups[|groups| - 1];
      rest + if IsGroup(g) then HandlerItems(g.fields - {"hooks"}, g.fields["hooks"].items) else [Entry(g)]
  }

  lemma {:induction false} HandlersKept(around: map<string, Json>, handlers: seq<Json>)
    ensures HandlerItems(around, CleanHandlers(handlers)) == HandlerItems(around, handlers)
  {
    if handlers != [] {
      var rest, h := handlers[..|handlers| - 1], handlers[|handlers| - 1];
      HandlersKept(around, rest);
      if !IsLoopora(h) {
        assert (CleanHandlers(rest) + [h])[..|CleanHandlers(rest)|] == CleanHandlers(rest);
      }
    }
  }

  /** Removal keeps everything the user wrote, in the user's order. */
  lemma {:induction false} UserItemsKept(groups: seq<Json>)
    ensures UserItems(CleanGroups(groups)) == UserItems(groups)
  {
    if groups != [] {
      var rest, g := groups[..|groups| - 1], groups[|groups| - 1];
      UserItemsKept(rest);
      if IsGroup(g) {
        HandlersKept(g.fields - {"hooks"}, g.fields["hooks"].items);
      }
      if Dropped(g) {
        assert UserItems(rest) + [] == UserItems(rest);
      } else {
        assert (CleanGroups(rest) + [CleanGroup(g)])[..|CleanGroups(rest)|] == CleanGroups(rest);
        if IsGroup(g) {
          assert CleanGroup(g).fields - {"hooks"} == g.fields - {"hooks"};
        }
      }
    }
  }
}
