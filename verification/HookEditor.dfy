/** The loops that edit a hook tree, each proved against the tree functions. */
module HookEditors {
  import opened Common
  import opened HookTrees
  import opened HookTexts

  method HasHandler(p: Pattern, handlers: seq<Json>) returns (b: bool)
    ensures b <==> AnyMatch(p, handlers)
  {
    for i := 0 to |handlers|
      invariant forall j :: 0 <= j < i ==> !Matches(p, handlers[j])
    {
      if Matches(p, handlers[i]) {
        return true;
      }
    }
    return false;
  }

  /** hasClaudeHook and hasShellHook: malformed groups are passed over. */
  method HasHook(p: Pattern, matcher: string, hooks: Tree, event: string) returns (b: bool)
    ensures b <==> EventHas(p, matcher, hooks, event)
    ensures b <==> Serves(p, matcher, hooks, event)
  {
    ServesIff(p, matcher, hooks, event);
    if ArrayAt(hooks, event).None? {
      return false;
    }
    var groups := ArrayAt(hooks, event).value;
    for i := 0 to |groups|
      invariant forall j :: 0 <= j < i ==> !GroupHas(p, matcher, groups[j])
    {
      var group := groups[i];
      if group.Obj? && (matcher == "" || HasField(group.fields, "matcher", Str(matcher))) {
        b := HasHandler(p, HandlersOf(group));
        if b {
          return;
        }
      }
    }
    return false;
  }

  method FilterHandlers(p: Pattern, handlers: seq<Json>) returns (kept: seq<Json>, changed: bool)
    ensures kept == Keep(p, handlers)
    ensures changed <==> AnyMatch(p, handlers)
  {
    kept, changed := [], false;
    for i := 0 to |handlers|
      invariant kept == Keep(p, handlers[..i])
      invariant changed <==> exists j :: 0 <= j < i && Matches(p, handlers[j])
    {
      assert handlers[..i + 1][..i] == handlers[..i];
      if Matches(p, handlers[i]) {
        changed := true;
      } else {
        kept := kept + [handlers[i]];
      }
    }
    assert handlers[..|handlers|] == handlers;
  }

  method FilterGroup(p: Pattern, group: Json) returns (kept: Option<seq<Json>>, changed: bool)
    ensures kept.Some? <==> GoodGroup(group)
    ensures kept.Some? ==> kept.value == KeepGroup(p, group) && (changed <==> GroupHas(p, "", group))
  {
    if !group.Obj? || ArrayAt(group.fields, "hooks").None? {
      return None, false;
    }
    var handlers := ArrayAt(group.fields, "hooks").value;
    var filtered, removed := FilterHandlers(p, handlers);
    if filtered == [] && handlers != [] {
      return Some([]), removed;
    }
    return Some([Obj(group.fields["hooks" := Arr(filtered)])]), removed;
  }

  method FilterGroups(p: Pattern, groups: seq<Json>) returns (kept: Option<seq<Json>>, changed: bool)
    ensures kept.Some? <==> GoodGroups(groups)
    ensures kept.Some? ==> kept.value == KeepGroups(p, groups) && (changed <==> GroupsHave(p, "", groups))
  {
    var result := [];
    changed := false;
    var i := 0;
    while i < |groups|
      invariant 0 <= i <= |groups| && GoodGroups(groups[..i])
      invariant result == KeepGroups(p, groups[..i])
      invariant changed <==> GroupsHaveUpTo(p, groups, i)
    {
      GroupsNext(p, groups, i);
      var one, removed := FilterGroup(p, groups[i]);
      if one.None? {
        return None, false;
      }
      i := i + 1;
      result, changed := result + one.value, changed || removed;
    }
    assert groups[..i] == groups;
    return Some(result), changed;
  }

  ghost predicate GroupsHaveUpTo(p: Pattern, groups: seq<Json>, n: nat)
    requires n <= |groups|
  {
    exists j :: 0 <= j < n && GroupHas(p, "", groups[j])
  }

  lemma GroupsNext(p: Pattern, groups: seq<Json>, i: nat)
    requires i < |groups| && GoodGroups(groups[..i])
    ensures GroupsHaveUpTo(p, groups, i + 1) <==> GroupsHaveUpTo(p, groups, i) || GroupHas(p, "", groups[i])
    ensures GoodGroups(groups[..i + 1]) <==> GoodGroup(groups[i])
    ensures GoodGroups(groups) ==> GoodGroup(groups[i])
    ensures GoodGroup(groups[i]) ==> KeepGroups(p, groups[..i + 1]) == KeepGroups(p, groups[..i]) + KeepGroup(p, groups[i])
  {
    assert groups[..i + 1][..i] == groups[..i];
    assert groups[..i + 1] == groups[..i] + [groups[i]];
  }

  method RemoveFromEvent(p: Pattern, hooks: Tree, event: string) returns (r: Option<Tree>, changed: bool)
    ensures r.Some? <==> Removable(hooks, event)
    ensures r.Some? ==> r.value == RemoveEvent(p, hooks, event) && (changed <==> EventHas(p, "", hooks, event))
  {
    if event !in hooks {
      return Some(hooks), false;
    }
    if !hooks[event].Arr? {
      return None, false;
    }
    var kept, removed := FilterGroups(p, hooks[event].items);
    if kept.None? {
      return None, false;
    }
    changed := removed;
    if kept.value == [] {
      r := Some(hooks - {event});
    } else {
      r := Some(hooks[event := Arr(kept.value)]);
    }
  }

  ghost predicate AnyHas(p: Pattern, events: seq<string>, hooks: Tree) {
    exists i :: 0 <= i < |events| && EventHas(p, "", hooks, events[i])
  }

  /** removeClaudeHooks and removeShellHooksWhere; `changed` says whether a handler was there to remove. */
  method RemoveHooks(p: Pattern, events: seq<string>, root: Tree) returns (r: Option<Tree>, changed: bool)
    ensures r == Remove(p, events, root)
    ensures r.Some? && "hooks" in root && root["hooks"].Obj? ==> (changed <==> AnyHas(p, events, root["hooks"].fields))
    ensures r.Some? && "hooks" !in root ==> !changed
  {
    if "hooks" !in root {
      return Some(root), false;
    }
    if !root["hooks"].Obj? {
      return None, false;
    }
    var hooks, removed := RemoveEvents(p, events, root["hooks"].fields);
    if hooks.None? {
      return None, false;
    }
    return Some(root["hooks" := Obj(hooks.value)]), removed;
  }

  method RemoveEvents(p: Pattern, events: seq<string>, before: Tree) returns (r: Option<Tree>, changed: bool)
    ensures r == RemoveAll(p, events, before)
    ensures r.Some? ==> (changed <==> AnyHas(p, events, before))
  {
    var hooks := before;
    changed := false;
    var i := 0;
    while i < |events|
      invariant 0 <= i <= |events| && RemoveAll(p, events[..i], before) == Some(hooks)
      invariant changed <==> HasUpTo(p, events, i, before)
    {
      RemoveNext(p, events, i, before);
      ghost var expected := RemoveAll(p, events[..i + 1], before);
      var next, removed := RemoveFromEvent(p, hooks, events[i]);
      i := i + 1;
      if next.None? {
        RemoveStuck(p, events, i, before);
        return None, false;
      }
      assert next == expected;
      hooks, changed := next.value, changed || removed;
    }
    assert events[..i] == events;
    r := Some(hooks);
  }

  ghost predicate HasUpTo(p: Pattern, events: seq<string>, n: nat, hooks: Tree)
    requires n <= |events|
  {
    exists j :: 0 <= j < n && EventHas(p, "", hooks, events[j])
  }

  /** One more event; an event listed twice had its handlers, if any, counted the first time. */
  lemma RemoveNext(p: Pattern, events: seq<string>, i: nat, before: Tree)
    requires i < |events| && RemoveAll(p, events[..i], before).Some?
    ensures var hooks := RemoveAll(p, events[..i], before).value;
      && RemoveAll(p, events[..i + 1], before) == (if Removable(hooks, events[i]) then Some(RemoveEvent(p, hooks, events[i])) else None)
      && (HasUpTo(p, events, i + 1, before) <==> HasUpTo(p, events, i, before) || EventHas(p, "", hooks, events[i]))
  {
    assert events[..i + 1][..i] == events[..i];
    HasNext(p, events, i, before);
  }

  lemma HasNext(p: Pattern, events: seq<string>, i: nat, before: Tree)
    requires i < |events| && RemoveAll(p, events[..i], before).Some?
    ensures HasUpTo(p, events, i + 1, before) <==>
      HasUpTo(p, events, i, before) || EventHas(p, "", RemoveAll(p, events[..i], before).value, events[i])
  {
    var e := events[i];
    assert HasUpTo(p, events, i + 1, before) <==> HasUpTo(p, events, i, before) || EventHas(p, "", before, e);
    RemoveFilters(p, events[..i], before, e);
    if e in events[..i] {
      var j :| 0 <= j < i && events[..i][j] == e;
      assert events[j] == e;
    } else {
      assert GroupsAt(RemoveAll(p, events[..i], before).value, e) == GroupsAt(before, e);
    }
  }

  lemma {:induction false} RemoveStuck(p: Pattern, events: seq<string>, i: nat, hooks: Tree)
    requires i <= |events| && RemoveAll(p, events[..i], hooks).None?
    ensures RemoveAll(p, events, hooks).None?
    decreases |events|
  {
    if i == |events| {
      assert events[..i] == events;
    } else {
      assert events[..|events| - 1][..i] == events[..i];
      RemoveStuck(p, events[..|events| - 1], i, hooks);
    }
  }

  lemma {:induction false} MergeStuck(style: Style, p: Pattern, specs: seq<Spec>, i: nat, hooks: Tree)
    requires !p.ManagedShell? && i <= |specs| && MergeAll(style, p, specs[..i], hooks).None?
    ensures MergeAll(style, p, specs, hooks).None?
    decreases |specs|
  {
    if i == |specs| {
      assert specs[..i] == specs;
    } else {
      assert specs[..|specs| - 1][..i] == specs[..i];
      MergeStuck(style, p, specs[..|specs| - 1], i, hooks);
    }
  }

  /** One event of mergeClaudeHooks or mergeShellHooks. */
  method MergeOne(style: Style, p: Pattern, spec: Spec, hooks: Tree) returns (r: Option<Tree>, changed: bool)
    requires !p.ManagedShell?
    ensures r == MergeSpec(style, p, spec, hooks)
    ensures changed <==> !EventHas(p, Asked(style, spec), hooks, spec.event) && r.Some?
  {
    var present := HasHook(p, if style.Claude? then "" else spec.matcher, hooks, spec.event);
    if present {
      return Some(hooks), false;
    }
    var current := hooks;
    if style.Shell? {
      var cleared, _ := RemoveFromEvent(p, hooks, spec.event);
      if cleared.None? {
        return None, false;
      }
      current := cleared.value;
    }
    if ArrayAt(current, spec.event).None? {
      return None, false;
    }
    r := Some(current[spec.event := Arr(ArrayAt(current, spec.event).value + [GroupFor(p, spec.matcher)])]);
    changed := true;
  }

  /** The events in turn; something changes exactly when some event lacked the handler. */
  method MergeEvents(style: Style, p: Pattern, specs: seq<Spec>, hooks: Tree) returns (r: Option<Tree>, changed: bool)
    requires !p.ManagedShell?
    ensures r == MergeAll(style, p, specs, hooks)
    ensures r.Some? ==> (changed <==> !AllInstalled(style, p, specs, hooks))
  {
    var current := hooks;
    changed := false;
    var i := 0;
    while i < |specs|
      invariant 0 <= i <= |specs| && MergeAll(style, p, specs[..i], hooks) == Some(current)
      invariant changed ==> !InstalledUpTo(style, p, specs, |specs|, hooks)
      invariant !changed ==> current == hooks && InstalledUpTo(style, p, specs, i, hooks)
    {
      MergeNext(style, p, specs, i, hooks);
      InstalledNext(style, p, specs, i, hooks);
      ghost var expected := MergeAll(style, p, specs[..i + 1], hooks);
      var next, added := MergeOne(style, p, specs[i], current);
      assert next == expected;
      i := i + 1;
      if next.None? {
        MergeStuck(style, p, specs, i, hooks);
        return None, false;
      }
      current, changed := next.value, changed || added;
    }
    assert specs[..i] == specs;
    r := Some(current);
  }

  ghost predicate InstalledUpTo(style: Style, p: Pattern, specs: seq<Spec>, n: nat, hooks: Tree)
    requires n <= |specs|
  {
    forall j :: 0 <= j < n ==> EventHas(p, Asked(style, specs[j]), hooks, specs[j].event)
  }

  lemma InstalledNext(style: Style, p: Pattern, specs: seq<Spec>, i: nat, hooks: Tree)
    requires i < |specs|
    ensures InstalledUpTo(style, p, specs, i + 1, hooks) <==>
      InstalledUpTo(style, p, specs, i, hooks) && EventHas(p, Asked(style, specs[i]), hooks, specs[i].event)
    ensures InstalledUpTo(style, p, specs, |specs|, hooks) ==> InstalledUpTo(style, p, specs, i + 1, hooks)
  {
  }

  lemma MergeNext(style: Style, p: Pattern, specs: seq<Spec>, i: nat, hooks: Tree)
    requires !p.ManagedShell? && i < |specs| && MergeAll(style, p, specs[..i], hooks).Some?
    ensures MergeAll(style, p, specs[..i + 1], hooks) == MergeSpec(style, p, specs[i], MergeAll(style, p, specs[..i], hooks).value)
  {
    assert specs[..i + 1][..i] == specs[..i];
  }

  /** mergeClaudeHooks and mergeShellHooks. */
  method MergeHooks(style: Style, p: Pattern, specs: seq<Spec>, versioned: bool, root: Tree) returns (r: Option<Tree>, changed: bool)
    requires !p.ManagedShell?
    ensures r == Merge(style, p, specs, versioned, root)
    ensures r.Some? ==>
      && HooksOf(root).Some?
      && (changed <==> (versioned && "version" !in root) || !AllInstalled(style, p, specs, HooksOf(root).value))
  {
    var current := root;
    changed := false;
    if versioned {
      if "version" in root {
        if root["version"] != Num(1) {
          return None, false;
        }
      } else {
        current := root["version" := Num(1)];
        changed := true;
      }
    }
    if HooksOf(current).None? {
      return None, false;
    }
    var hooks, added := MergeEvents(style, p, specs, HooksOf(current).value);
    if hooks.None? {
      return None, false;
    }
    r := Some(current["hooks" := Obj(hooks.value)]);
    changed := changed || added;
  }
}
