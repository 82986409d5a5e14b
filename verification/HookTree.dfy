/**
 * Hook configuration trees: a `hooks` object maps each event to an array of groups, and
 * each group carries an array of handlers. Merging installs a handler for every event;
 * removal takes the matching handlers out again.
 */
module HookTrees {
  import opened Common
  import opened Text

  datatype Json =
    | Null
    | Bool(b: bool)
    | Num(n: int)
    | Str(s: string)
    | Arr(items: seq<Json>)
    | Obj(fields: map<string, Json>)

  type Tree = map<string, Json>

  /** What a removal or a lookup looks for. */
  datatype Pattern =
    | ClaudeCommand(command: string, args: seq<string>)
    | ShellCommand(command: string)
    | ManagedShell(suffix: string, keep: string)

  // ---------------------------------------------------------------- handlers

  function StrArgs(args: seq<string>): seq<Json> {
    seq(|args|, i requires 0 <= i < |args| => Str(args[i]))
  }

  predicate HasField(t: Tree, key: string, value: Json) {
    key in t && t[key] == value
  }

  predicate ArgsMatch(t: Tree, args: seq<string>) {
    if args == [] then "args" in t ==> t["args"] == Arr([])
    else HasField(t, "args", Arr(StrArgs(args)))
  }

  predicate HasSuffix(s: string, suffix: string) {
    |suffix| <= |s| && s[|s| - |suffix|..] == suffix
  }

  predicate Matches(p: Pattern, handler: Json) {
    && handler.Obj?
    && HasField(handler.fields, "type", Str("command"))
    && match p
       case ClaudeCommand(command, args) => HasField(handler.fields, "command", Str(command)) && ArgsMatch(handler.fields, args)
       case ShellCommand(command) => HasField(handler.fields, "command", Str(command))
       case ManagedShell(suffix, keep) =>
         "command" in handler.fields && handler.fields["command"].Str? &&
         handler.fields["command"].s != keep && HasSuffix(handler.fields["command"].s, suffix)
  }

  function HandlerFor(p: Pattern): Json
    requires !p.ManagedShell?
  {
    var common := map["type" := Str("command"), "command" := Str(p.command), "timeout" := Num(5)];
    if p.ClaudeCommand? && p.args != [] then Obj(common["args" := Arr(StrArgs(p.args))]) else Obj(common)
  }

  /** What is installed is what is looked for. */
  lemma HandlerMatches(p: Pattern)
    requires !p.ManagedShell?
    ensures Matches(p, HandlerFor(p))
  {
  }

  // ---------------------------------------------------------------- groups

  /** arrayField without creation: absent reads as no elements, anything but an array is an error. */
  function ArrayAt(t: Tree, key: string): Option<seq<Json>> {
    if key !in t then Some([]) else if t[key].Arr? then Some(t[key].items) else None
  }

  function HandlersOf(group: Json): seq<Json> {
    if group.Obj? && ArrayAt(group.fields, "hooks").Some? then ArrayAt(group.fields, "hooks").value else []
  }

  ghost predicate AnyMatch(p: Pattern, handlers: seq<Json>) {
    exists i :: 0 <= i < |handlers| && Matches(p, handlers[i])
  }

  /** The group carries a handler, under the matcher asked for ("" asks for none). */
  ghost predicate GroupHas(p: Pattern, matcher: string, group: Json) {
    group.Obj? && (matcher == "" || HasField(group.fields, "matcher", Str(matcher))) && AnyMatch(p, HandlersOf(group))
  }

  ghost predicate GroupsHave(p: Pattern, matcher: string, groups: seq<Json>) {
    exists i :: 0 <= i < |groups| && GroupHas(p, matcher, groups[i])
  }

  /** The groups of an event; a value that is not an array has none. */
  function GroupsAt(hooks: Tree, event: string): seq<Json> {
    if ArrayAt(hooks, event).Some? then ArrayAt(hooks, event).value else []
  }

  ghost predicate EventHas(p: Pattern, matcher: string, hooks: Tree, event: string) {
    GroupsHave(p, matcher, GroupsAt(hooks, event))
  }

  function Keep(p: Pattern, handlers: seq<Json>): seq<Json> {
    if handlers == [] then []
    else
      var front := Keep(p, handlers[..|handlers| - 1]);
      var last := handlers[|handlers| - 1];
      if Matches(p, last) then front else front + [last]
  }

  predicate GoodGroup(group: Json) {
    group.Obj? && ArrayAt(group.fields, "hooks").Some?
  }

  /** A group after removal: gone when removal emptied it. */
  function KeepGroup(p: Pattern, group: Json): seq<Json>
    requires GoodGroup(group)
  {
    var kept := Keep(p, HandlersOf(group));
    if kept == [] && HandlersOf(group) != [] then [] else [Obj(group.fields["hooks" := Arr(kept)])]
  }

  ghost predicate GoodGroups(groups: seq<Json>) {
    forall i :: 0 <= i < |groups| ==> GoodGroup(groups[i])
  }

  ghost function KeepGroups(p: Pattern, groups: seq<Json>): seq<Json>
    requires GoodGroups(groups)
  {
    if groups == [] then []
    else KeepGroups(p, groups[..|groups| - 1]) + KeepGroup(p, groups[|groups| - 1])
  }

  /** All handlers of an event, group after group. */
  function Flatten(groups: seq<Json>): seq<Json> {
    if groups == [] then [] else Flatten(groups[..|groups| - 1]) + HandlersOf(groups[|groups| - 1])
  }

  // ---------------------------------------------------------------- one event

  ghost predicate Removable(hooks: Tree, event: string) {
    event in hooks ==> hooks[event].Arr? && GoodGroups(hooks[event].items)
  }

  /** removeShellHookFromEvent; an event left without groups disappears. */
  ghost function RemoveEvent(p: Pattern, hooks: Tree, event: string): Tree
    requires Removable(hooks, event)
  {
    if event !in hooks then hooks
    else
      var kept := KeepGroups(p, hooks[event].items);
      if kept == [] then hooks - {event} else hooks[event := Arr(kept)]
  }

  function GroupFor(p: Pattern, matcher: string): Json
    requires !p.ManagedShell?
  {
    var plain := map["hooks" := Arr([HandlerFor(p)])];
    Obj(if matcher == "" then plain else plain["matcher" := Str(matcher)])
  }

  function AppendGroup(p: Pattern, matcher: string, hooks: Tree, event: string): Tree
    requires !p.ManagedShell? && ArrayAt(hooks, event).Some?
  {
    hooks[event := Arr(ArrayAt(hooks, event).value + [GroupFor(p, matcher)])]
  }

  // ---------------------------------------------------------------- several events

  /** An event to install for, and the matcher of its group ("" for none). */
  datatype Spec = Spec(event: string, matcher: string)

  /** Claude asks for the handler under any matcher and only adds; the shell form asks for the matcher and clears the event first. */
  datatype Style = Claude | Shell

  function Asked(style: Style, spec: Spec): string {
    if style.Claude? then "" else spec.matcher
  }

  ghost function MergeSpec(style: Style, p: Pattern, spec: Spec, hooks: Tree): Option<Tree>
    requires !p.ManagedShell?
  {
    if EventHas(p, Asked(style, spec), hooks, spec.event) then Some(hooks)
    else if style.Claude? then
      if ArrayAt(hooks, spec.event).None? then None else Some(AppendGroup(p, spec.matcher, hooks, spec.event))
    else if !Removable(hooks, spec.event) then None
    else Some(AppendGroup(p, spec.matcher, RemoveEvent(p, hooks, spec.event), spec.event))
  }

  ghost function MergeAll(style: Style, p: Pattern, specs: seq<Spec>, hooks: Tree): Option<Tree>
    requires !p.ManagedShell?
  {
    if specs == [] then Some(hooks)
    else
      var before := MergeAll(style, p, specs[..|specs| - 1], hooks);
      if before.None? then None else MergeSpec(style, p, specs[|specs| - 1], before.value)
  }

  ghost function RemoveAll(p: Pattern, events: seq<string>, hooks: Tree): Option<Tree> {
    if events == [] then Some(hooks)
    else
      var before := RemoveAll(p, events[..|events| - 1], hooks);
      if before.None? || !Removable(before.value, events[|events| - 1]) then None
      else Some(RemoveEvent(p, before.value, events[|events| - 1]))
  }

  /** The root with its version entry, which must be 1 when it is required. */
  function Versioned(root: Tree, required: bool): Option<Tree> {
    if !required then Some(root)
    else if "version" !in root then Some(root["version" := Num(1)])
    else if root["version"] == Num(1) then Some(root)
    else None
  }

  /** objectField with creation: the hooks object, empty when absent. */
  function HooksOf(root: Tree): Option<Tree> {
    if "hooks" !in root then Some(map[]) else if root["hooks"].Obj? then Some(root["hooks"].fields) else None
  }

  ghost function Merge(style: Style, p: Pattern, specs: seq<Spec>, versioned: bool, root: Tree): Option<Tree>
    requires !p.ManagedShell?
  {
    var r := Versioned(root, versioned);
    if r.None? || HooksOf(r.value).None? then None
    else
      var hooks := MergeAll(style, p, specs, HooksOf(r.value).value);
      if hooks.None? then None else Some(r.value["hooks" := Obj(hooks.value)])
  }

  ghost function Remove(p: Pattern, events: seq<string>, root: Tree): Option<Tree> {
    if "hooks" !in root then Some(root)
    else if !root["hooks"].Obj? then None
    else
      var hooks := RemoveAll(p, events, root["hooks"].fields);
      if hooks.None? then None else Some(root["hooks" := Obj(hooks.value)])
  }

  // ---------------------------------------------------------------- removal keeps the rest

  lemma {:induction false} KeepAppend(p: Pattern, a: seq<Json>, b: seq<Json>)
    ensures Keep(p, a + b) == Keep(p, a) + Keep(p, b)
    decreases |b|
  {
    if b == [] {
      assert a + b == a;
    } else {
      KeepAppend(p, a, b[..|b| - 1]);
      assert (a + b)[..|a + b| - 1] == a + b[..|b| - 1];
    }
  }

  lemma {:induction false} KeepNone(p: Pattern, handlers: seq<Json>)
    ensures forall i :: 0 <= i < |Keep(p, handlers)| ==> !Matches(p, Keep(p, handlers)[i])
    ensures !AnyMatch(p, handlers) <==> Keep(p, handlers) == handlers
    ensures |Keep(p, handlers)| <= |handlers|
  {
    if handlers != [] {
      var front, last := handlers[..|handlers| - 1], handlers[|handlers| - 1];
      KeepNone(p, front);
      assert handlers == front + [last];
      assert AnyMatch(p, handlers) <==> AnyMatch(p, front) || Matches(p, last) by {
        if i :| 0 <= i < |front| && Matches(p, front[i]) {
          assert handlers[i] == front[i];
        }
        if i :| 0 <= i < |handlers| && Matches(p, handlers[i]) {
          assert i < |front| ==> front[i] == handlers[i];
        }
      }
    }
  }

  lemma {:induction false} FlattenAppend(a: seq<Json>, b: seq<Json>)
    ensures Flatten(a + b) == Flatten(a) + Flatten(b)
    decreases |b|
  {
    if b == [] {
      assert a + b == a;
    } else {
      var front, last := b[..|b| - 1], b[|b| - 1];
      FlattenAppend(a, front);
      FlattenLast(b, front, last);
      FlattenLast(a + b, a + front, last);
      Regroup(Flatten(a), Flatten(front), HandlersOf(last));
    }
  }

  lemma FlattenLast(groups: seq<Json>, front: seq<Json>, last: Json)
    requires groups == front + [last]
    ensures Flatten(groups) == Flatten(front) + HandlersOf(last)
  {
    assert groups[..|groups| - 1] == front;
  }

  lemma Regroup(a: seq<Json>, b: seq<Json>, c: seq<Json>)
    ensures a + b + c == a + (b + c)
  {
  }

  lemma KeepGroupFlat(p: Pattern, group: Json)
    requires GoodGroup(group)
    ensures Flatten(KeepGroup(p, group)) == Keep(p, HandlersOf(group))
    ensures GoodGroups(KeepGroup(p, group))
  {
    var k := KeepGroup(p, group);
    if k != [] {
      assert k[..0] == [];
      assert HandlersOf(k[0]) == Keep(p, HandlersOf(group));
    }
  }

  /** Across groups: exactly the matching handlers go, the others stay in order. */
  lemma {:induction false} RemovalIsFilter(p: Pattern, groups: seq<Json>)
    requires GoodGroups(groups)
    ensures Flatten(KeepGroups(p, groups)) == Keep(p, Flatten(groups))
    ensures GoodGroups(KeepGroups(p, groups))
  {
    if groups != [] {
      var front, last := groups[..|groups| - 1], groups[|groups| - 1];
      RemovalIsFilter(p, front);
      KeepAppend(p, Flatten(front), HandlersOf(last));
      KeepGroupFlat(p, last);
      FlattenAppend(KeepGroups(p, front), KeepGroup(p, last));
    }
  }

  /** A group that loses nothing is kept as it is. */
  lemma KeepGroupWhole(p: Pattern, group: Json)
    requires GoodGroup(group) && "hooks" in group.fields && !AnyMatch(p, HandlersOf(group))
    ensures KeepGroup(p, group) == [group]
  {
    KeepNone(p, HandlersOf(group));
    assert group.fields["hooks" := Arr(HandlersOf(group))] == group.fields;
  }

  // ---------------------------------------------------------------- merging installs

  lemma AppendedHas(p: Pattern, matcher: string, asked: string, hooks: Tree, event: string)
    requires !p.ManagedShell? && ArrayAt(hooks, event).Some? && (asked == "" || asked == matcher)
    ensures EventHas(p, asked, AppendGroup(p, matcher, hooks, event), event)
  {
    HandlerMatches(p);
    var groups := GroupsAt(AppendGroup(p, matcher, hooks, event), event);
    assert HandlersOf(groups[|groups| - 1])[0] == HandlerFor(p);
    assert GroupHas(p, asked, groups[|groups| - 1]);
  }

  lemma AppendKeeps(p: Pattern, matcher: string, asked: string, hooks: Tree, event: string)
    requires !p.ManagedShell? && ArrayAt(hooks, event).Some? && EventHas(p, asked, hooks, event)
    ensures EventHas(p, asked, AppendGroup(p, matcher, hooks, event), event)
  {
    var groups := GroupsAt(hooks, event);
    var i :| 0 <= i < |groups| && GroupHas(p, asked, groups[i]);
    assert GroupsAt(AppendGroup(p, matcher, hooks, event), event)[i] == groups[i];
  }

  predicate SameAt(h: Tree, g: Tree, e: string) {
    (e in h <==> e in g) && (e in h ==> h[e] == g[e])
  }

  lemma StepInstalls(style: Style, p: Pattern, spec: Spec, hooks: Tree)
    requires !p.ManagedShell? && MergeSpec(style, p, spec, hooks).Some?
    ensures var h := MergeSpec(style, p, spec, hooks).value;
      EventHas(p, Asked(style, spec), h, spec.event) && forall e :: e != spec.event ==> SameAt(hooks, h, e)
  {
    if !EventHas(p, Asked(style, spec), hooks, spec.event) {
      if style.Claude? {
        AppendedHas(p, spec.matcher, "", hooks, spec.event);
      } else {
        AppendedHas(p, spec.matcher, spec.matcher, RemoveEvent(p, hooks, spec.event), spec.event);
      }
    }
  }

  /** Matchers of the same event agree: the shell form keeps one group per event. */
  ghost predicate Agree(style: Style, specs: seq<Spec>) {
    style.Shell? ==>
      forall i, j :: 0 <= i < j < |specs| && specs[i].event == specs[j].event && specs[i].matcher != "" && specs[j].matcher != "" ==>
        specs[i].matcher == specs[j].matcher
  }

  lemma StepKeeps(style: Style, p: Pattern, spec: Spec, other: Spec, hooks: Tree)
    requires !p.ManagedShell? && MergeSpec(style, p, spec, hooks).Some?
    requires EventHas(p, Asked(style, other), hooks, other.event)
    requires style.Shell? && spec.event == other.event && spec.matcher != "" && other.matcher != "" ==> spec.matcher == other.matcher
    ensures EventHas(p, Asked(style, other), MergeSpec(style, p, spec, hooks).value, other.event)
  {
    if EventHas(p, Asked(style, spec), hooks, spec.event) {
    } else if spec.event != other.event {
      StepInstalls(style, p, spec, hooks);
    } else if style.Claude? {
      AppendKeeps(p, spec.matcher, "", hooks, spec.event);
    } else if other.matcher == "" || other.matcher == spec.matcher {
      AppendedHas(p, spec.matcher, other.matcher, RemoveEvent(p, hooks, spec.event), spec.event);
    } else {
      AnyMatcherWillDo(p, other.matcher, hooks, spec.event);
    }
  }

  lemma AnyMatcherWillDo(p: Pattern, matcher: string, hooks: Tree, event: string)
    requires EventHas(p, matcher, hooks, event)
    ensures EventHas(p, "", hooks, event)
  {
    var groups := GroupsAt(hooks, event);
    var i :| 0 <= i < |groups| && GroupHas(p, matcher, groups[i]);
    assert GroupHas(p, "", groups[i]);
  }

  /** A successful merge gives every event the handler. */
  lemma {:induction false} MergeInstalls(style: Style, p: Pattern, specs: seq<Spec>, hooks: Tree, i: nat)
    requires !p.ManagedShell? && MergeAll(style, p, specs, hooks).Some? && Agree(style, specs) && i < |specs|
    ensures EventHas(p, Asked(style, specs[i]), MergeAll(style, p, specs, hooks).value, specs[i].event)
    decreases |specs|
  {
    var front, last := specs[..|specs| - 1], specs[|specs| - 1];
    var before := MergeAll(style, p, front, hooks).value;
    if i == |specs| - 1 {
      StepInstalls(style, p, last, before);
    } else {
      assert front[i] == specs[i];
      MergeInstalls(style, p, front, hooks, i);
      StepKeeps(style, p, last, specs[i], before);
    }
  }

  ghost predicate AllInstalled(style: Style, p: Pattern, specs: seq<Spec>, hooks: Tree) {
    forall i :: 0 <= i < |specs| ==> EventHas(p, Asked(style, specs[i]), hooks, specs[i].event)
  }

  lemma MergeInstallsAll(style: Style, p: Pattern, specs: seq<Spec>, hooks: Tree)
    requires !p.ManagedShell? && MergeAll(style, p, specs, hooks).Some? && Agree(style, specs)
    ensures AllInstalled(style, p, specs, MergeAll(style, p, specs, hooks).value)
  {
    forall i | 0 <= i < |specs| ensures EventHas(p, Asked(style, specs[i]), MergeAll(style, p, specs, hooks).value, specs[i].event) {
      MergeInstalls(style, p, specs, hooks, i);
    }
  }

  lemma {:induction false} MergeOfInstalled(style: Style, p: Pattern, specs: seq<Spec>, hooks: Tree)
    requires !p.ManagedShell? && AllInstalled(style, p, specs, hooks)
    ensures MergeAll(style, p, specs, hooks) == Some(hooks)
  {
    if specs != [] {
      MergeOfInstalled(style, p, specs[..|specs| - 1], hooks);
    }
  }

  lemma MergeShape(style: Style, p: Pattern, specs: seq<Spec>, versioned: bool, root: Tree, hooks: Tree)
    requires !p.ManagedShell? && HasField(root, "hooks", Obj(hooks)) && (versioned ==> HasField(root, "version", Num(1)))
    requires MergeAll(style, p, specs, hooks) == Some(hooks)
    ensures Merge(style, p, specs, versioned, root) == Some(root)
  {
    assert root["hooks" := Obj(hooks)] == root;
  }

  /** A merge installs every spec, and a second one changes nothing. */
  lemma MergeTwice(style: Style, p: Pattern, specs: seq<Spec>, versioned: bool, root: Tree)
    requires !p.ManagedShell? && Merge(style, p, specs, versioned, root).Some? && Agree(style, specs)
    ensures var once := Merge(style, p, specs, versioned, root).value;
      && Merge(style, p, specs, versioned, once) == Some(once)
      && HooksOf(once).Some? && AllInstalled(style, p, specs, HooksOf(once).value)
  {
    var once := Merge(style, p, specs, versioned, root).value;
    var hooks := HooksOf(Versioned(root, versioned).value).value;
    var merged := MergeAll(style, p, specs, hooks).value;
    MergeInstallsAll(style, p, specs, hooks);
    MergeOfInstalled(style, p, specs, merged);
    MergeShape(style, p, specs, versioned, once, merged);
  }

  // ---------------------------------------------------------------- removal, event by event

  lemma {:induction false} NoMatchFlat(p: Pattern, groups: seq<Json>)
    ensures GroupsHave(p, "", groups) <==> AnyMatch(p, Flatten(groups))
  {
    if groups != [] {
      var front, last := groups[..|groups| - 1], groups[|groups| - 1];
      NoMatchFlat(p, front);
      AnyMatchAppend(p, Flatten(front), HandlersOf(last));
      if i :| 0 <= i < |front| && GroupHas(p, "", front[i]) {
        assert groups[i] == front[i];
      }
      if i :| 0 <= i < |groups| && GroupHas(p, "", groups[i]) {
        assert i < |front| ==> front[i] == groups[i];
      }
    }
  }

  lemma AnyMatchAppend(p: Pattern, a: seq<Json>, b: seq<Json>)
    ensures AnyMatch(p, a + b) <==> AnyMatch(p, a) || AnyMatch(p, b)
  {
    if i :| 0 <= i < |a| && Matches(p, a[i]) {
      assert (a + b)[i] == a[i];
    }
    if i :| 0 <= i < |b| && Matches(p, b[i]) {
      assert (a + b)[|a| + i] == b[i];
    }
  }

  lemma RemoveEventFilters(p: Pattern, hooks: Tree, event: string)
    requires Removable(hooks, event)
    ensures var h := RemoveEvent(p, hooks, event);
      && Flatten(GroupsAt(h, event)) == Keep(p, Flatten(GroupsAt(hooks, event)))
      && (forall e :: e != event ==> SameAt(hooks, h, e))
  {
    if event in hooks {
      RemovalIsFilter(p, hooks[event].items);
    }
  }

  /** After removal: the other events are untouched, and the listed ones keep exactly their non-matching handlers, in order. */
  lemma {:induction false} RemoveFilters(p: Pattern, events: seq<string>, hooks: Tree, e: string)
    requires RemoveAll(p, events, hooks).Some?
    ensures var h := RemoveAll(p, events, hooks).value;
      if e in events
      then Flatten(GroupsAt(h, e)) == Keep(p, Flatten(GroupsAt(hooks, e))) && !EventHas(p, "", h, e)
      else SameAt(hooks, h, e)
  {
    if events != [] {
      var front, last := events[..|events| - 1], events[|events| - 1];
      assert events == front + [last];
      var before := RemoveAll(p, front, hooks).value;
      RemoveFilters(p, front, hooks, e);
      RemoveEventFilters(p, before, last);
      if e in events {
        var flat := Flatten(GroupsAt(hooks, e));
        KeepNone(p, flat);
        KeepNone(p, Keep(p, flat));
        NoMatchFlat(p, GroupsAt(RemoveAll(p, events, hooks).value, e));
        if e != last {
          assert e in front;
        }
      }
    }
  }

  // ---------------------------------------------------------------- removal undoes merging

  /** A group that removal leaves as it is. */
  ghost predicate Untouched(p: Pattern, group: Json) {
    GoodGroup(group) && "hooks" in group.fields && !AnyMatch(p, HandlersOf(group))
  }

  ghost predicate AllUntouched(p: Pattern, groups: seq<Json>) {
    forall i :: 0 <= i < |groups| ==> Untouched(p, groups[i])
  }

  /** The event is absent, or an array of groups that all carry a handler array without a match. */
  ghost predicate CleanAt(p: Pattern, hooks: Tree, e: string) {
    e in hooks ==> hooks[e].Arr? && hooks[e].items != [] && AllUntouched(p, hooks[e].items)
  }

  /** One installed group follows the groups of the original. */
  predicate Installed(p: Pattern, h: Tree, g: Tree, e: string, matcher: string)
    requires !p.ManagedShell?
  {
    e in g && g[e] == Arr(GroupsAt(h, e) + [GroupFor(p, matcher)])
  }

  lemma {:induction false} KeepCleanGroups(p: Pattern, groups: seq<Json>)
    requires AllUntouched(p, groups)
    ensures GoodGroups(groups) && KeepGroups(p, groups) == groups
  {
    if groups != [] {
      var front, last := groups[..|groups| - 1], groups[|groups| - 1];
      assert groups == front + [last];
      KeepCleanGroups(p, front);
      assert Untouched(p, last);
      KeepGroupWhole(p, last);
    }
  }

  lemma InstalledGroupGoes(p: Pattern, matcher: string)
    requires !p.ManagedShell?
    ensures GoodGroup(GroupFor(p, matcher)) && KeepGroup(p, GroupFor(p, matcher)) == []
  {
    HandlerMatches(p);
    var handlers := HandlersOf(GroupFor(p, matcher));
    assert handlers == [HandlerFor(p)];
    assert handlers[..0] == [];
    assert Keep(p, handlers) == [];
  }

  lemma InstalledGoes(p: Pattern, groups: seq<Json>, matcher: string)
    requires !p.ManagedShell? && AllUntouched(p, groups)
    ensures GoodGroups(groups + [GroupFor(p, matcher)]) && KeepGroups(p, groups + [GroupFor(p, matcher)]) == groups
  {
    var all := groups + [GroupFor(p, matcher)];
    assert all[..|all| - 1] == groups;
    KeepCleanGroups(p, groups);
    InstalledGroupGoes(p, matcher);
  }

  /** Removing puts an installed event back, and leaves a clean one alone. */
  lemma RemoveRestores(p: Pattern, h: Tree, g: Tree, e: string, matcher: string)
    requires !p.ManagedShell? && CleanAt(p, h, e) && (Installed(p, h, g, e, matcher) || SameAt(h, g, e))
    ensures Removable(g, e) && SameAt(h, RemoveEvent(p, g, e), e)
  {
    if e in h {
      KeepCleanGroups(p, h[e].items);
    }
    InstalledGoes(p, GroupsAt(h, e), matcher);
  }

  lemma InstalledHas(p: Pattern, h: Tree, g: Tree, e: string, matcher: string, asked: string)
    requires !p.ManagedShell? && CleanAt(p, h, e) && Installed(p, h, g, e, matcher)
    ensures EventHas(p, asked, g, e) <==> asked == "" || asked == matcher
  {
    HandlerMatches(p);
    var groups := GroupsAt(h, e);
    var all := GroupsAt(g, e);
    assert all == groups + [GroupFor(p, matcher)];
    assert HandlersOf(all[|groups|])[0] == HandlerFor(p);
    if asked == "" || asked == matcher {
      assert GroupHas(p, asked, all[|groups|]);
    } else {
      forall i | 0 <= i < |all| ensures !GroupHas(p, asked, all[i]) {
        if i < |groups| {
          assert all[i] == groups[i] && Untouched(p, groups[i]);
        }
      }
    }
  }

  lemma CleanHasNone(p: Pattern, h: Tree, g: Tree, e: string, asked: string)
    requires CleanAt(p, h, e) && SameAt(h, g, e)
    ensures !EventHas(p, asked, g, e)
  {
  }

  ghost predicate Listed(specs: seq<Spec>, e: string, matcher: string) {
    exists i :: 0 <= i < |specs| && specs[i] == Spec(e, matcher)
  }

  ghost predicate Mentioned(specs: seq<Spec>, e: string) {
    exists i :: 0 <= i < |specs| && specs[i].event == e
  }

  /** On clean events a merge succeeds and adds one group per event, under the matcher of one of its specs. */
  ghost predicate AddsOneGroup(p: Pattern, specs: seq<Spec>, h: Tree, g: Tree, e: string)
    requires !p.ManagedShell?
  {
    if Mentioned(specs, e) then exists m :: Listed(specs, e, m) && Installed(p, h, g, e, m) else SameAt(h, g, e)
  }

  lemma MergeStepClean(style: Style, p: Pattern, specs: seq<Spec>, spec: Spec, h: Tree, g: Tree)
    requires !p.ManagedShell? && CleanAt(p, h, spec.event) && AddsOneGroup(p, specs, h, g, spec.event)
    ensures MergeSpec(style, p, spec, g).Some?
    ensures AddsOneGroup(p, specs + [spec], h, MergeSpec(style, p, spec, g).value, spec.event)
  {
    var e := spec.event;
    assert (specs + [spec])[|specs|] == spec;
    assert Mentioned(specs + [spec], e);
    assert Listed(specs + [spec], e, spec.matcher);
    if Mentioned(specs, e) {
      var m :| Listed(specs, e, m) && Installed(p, h, g, e, m);
      ListedMore(specs, spec, e, m);
      InstalledHas(p, h, g, e, m, Asked(style, spec));
      RemoveRestores(p, h, g, e, m);
    } else {
      CleanHasNone(p, h, g, e, Asked(style, spec));
      RemoveRestores(p, h, g, e, "");
    }
    if !EventHas(p, Asked(style, spec), g, e) {
      assert Installed(p, h, MergeSpec(style, p, spec, g).value, e, spec.matcher);
    }
  }

  lemma ListedMore(specs: seq<Spec>, spec: Spec, e: string, m: string)
    requires Listed(specs, e, m)
    ensures Listed(specs + [spec], e, m)
  {
    var i :| 0 <= i < |specs| && specs[i] == Spec(e, m);
    assert (specs + [spec])[i] == Spec(e, m);
  }

  lemma {:induction false} MergeClean(style: Style, p: Pattern, specs: seq<Spec>, h: Tree)
    requires !p.ManagedShell? && forall i :: 0 <= i < |specs| ==> CleanAt(p, h, specs[i].event)
    ensures MergeAll(style, p, specs, h).Some?
    ensures forall e :: AddsOneGroup(p, specs, h, MergeAll(style, p, specs, h).value, e)
  {
    if specs != [] {
      var front, last := specs[..|specs| - 1], specs[|specs| - 1];
      assert specs == front + [last];
      assert forall i :: 0 <= i < |front| ==> front[i] == specs[i];
      MergeClean(style, p, front, h);
      var g := MergeAll(style, p, front, h).value;
      MergeStepClean(style, p, front, last, h, g);
      StepInstalls(style, p, last, g);
      var g' := MergeAll(style, p, specs, h).value;
      forall e ensures AddsOneGroup(p, specs, h, g', e) {
        if e != last.event {
          OtherEvent(p, front, last, h, g, g', e);
        }
      }
    }
  }

  lemma OtherEvent(p: Pattern, specs: seq<Spec>, spec: Spec, h: Tree, g: Tree, g': Tree, e: string)
    requires !p.ManagedShell? && AddsOneGroup(p, specs, h, g, e) && e != spec.event && SameAt(g, g', e)
    ensures AddsOneGroup(p, specs + [spec], h, g', e)
  {
    assert Mentioned(specs + [spec], e) <==> Mentioned(specs, e) by {
      if i :| 0 <= i < |specs| && specs[i].event == e {
        assert (specs + [spec])[i].event == e;
      }
    }
    if Mentioned(specs, e) {
      var m :| Listed(specs, e, m) && Installed(p, h, g, e, m);
      ListedMore(specs, spec, e, m);
      assert Installed(p, h, g', e, m);
    }
  }

  /** Each event is as it was, or carries the installed group on top. */
  ghost predicate AtMostOneGroup(p: Pattern, h: Tree, g: Tree, e: string)
    requires !p.ManagedShell?
  {
    SameAt(h, g, e) || exists m :: Installed(p, h, g, e, m)
  }

  lemma RemoveRestoresAt(p: Pattern, h: Tree, g: Tree, e: string)
    requires !p.ManagedShell? && CleanAt(p, h, e) && AtMostOneGroup(p, h, g, e)
    ensures Removable(g, e) && SameAt(h, RemoveEvent(p, g, e), e)
  {
    if SameAt(h, g, e) {
      RemoveRestores(p, h, g, e, "");
    } else {
      var m :| Installed(p, h, g, e, m);
      RemoveRestores(p, h, g, e, m);
    }
  }

  lemma SameKeeps(p: Pattern, h: Tree, g: Tree, r: Tree, e: string)
    requires !p.ManagedShell? && AtMostOneGroup(p, h, g, e) && SameAt(g, r, e)
    ensures AtMostOneGroup(p, h, r, e)
  {
    if !SameAt(h, r, e) {
      var m :| Installed(p, h, g, e, m);
      assert Installed(p, h, r, e, m);
    }
  }

  lemma SameEverywhere(h: Tree, g: Tree)
    requires forall e :: SameAt(h, g, e)
    ensures h == g
  {
    forall e ensures e in h <==> e in g {
      assert SameAt(h, g, e);
    }
    forall e | e in h ensures h[e] == g[e] {
      assert SameAt(h, g, e);
    }
  }

  /** After the listed events are removed from `g`: those are as in `h`, the others as in `g`. */
  ghost predicate Restored(p: Pattern, events: seq<string>, h: Tree, g: Tree, r: Tree, e: string)
    requires !p.ManagedShell?
  {
    AtMostOneGroup(p, h, r, e) && (if e in events then SameAt(h, r, e) else SameAt(g, r, e))
  }

  lemma RestoreStep(p: Pattern, events: seq<string>, last: string, h: Tree, g: Tree, before: Tree, e: string)
    requires !p.ManagedShell? && CleanAt(p, h, last) && Restored(p, events, h, g, before, last) && Restored(p, events, h, g, before, e)
    ensures Removable(before, last) && Restored(p, events + [last], h, g, RemoveEvent(p, before, last), e)
  {
    RemoveRestoresAt(p, h, before, last);
    if e != last {
      RemoveKeepsOthers(p, before, last, e);
    }
    assert e in events + [last] <==> e in events || e == last;
    if e != last {
      SameKeeps(p, h, before, RemoveEvent(p, before, last), e);
    }
  }

  lemma RemoveKeepsOthers(p: Pattern, hooks: Tree, event: string, e: string)
    requires Removable(hooks, event) && e != event
    ensures SameAt(hooks, RemoveEvent(p, hooks, event), e)
  {
  }

  lemma {:induction false} RemoveAllRestores(p: Pattern, events: seq<string>, h: Tree, g: Tree)
    requires !p.ManagedShell? && (forall i :: 0 <= i < |events| ==> CleanAt(p, h, events[i]))
    requires forall e :: AtMostOneGroup(p, h, g, e)
    ensures RemoveAll(p, events, g).Some?
    ensures forall e :: Restored(p, events, h, g, RemoveAll(p, events, g).value, e)
  {
    if events != [] {
      var front, last := events[..|events| - 1], events[|events| - 1];
      assert events == front + [last];
      RemoveAllRestores(p, front, h, g);
      var before := RemoveAll(p, front, g).value;
      assert Restored(p, front, h, g, before, last);
      forall e ensures Removable(before, last) && Restored(p, events, h, g, RemoveEvent(p, before, last), e) {
        RestoreStep(p, front, last, h, g, before, e);
      }
      RestoreStep(p, front, last, h, g, before, last);
    }
  }

  function EventsOf(specs: seq<Spec>): (events: seq<string>)
    ensures |events| == |specs| && forall i :: 0 <= i < |specs| ==> events[i] == specs[i].event
  {
    seq(|specs|, i requires 0 <= i < |specs| => specs[i].event)
  }

  /** Removing after merging gives the tree back. */
  lemma RemoveUndoesMerge(style: Style, p: Pattern, specs: seq<Spec>, versioned: bool, root: Tree)
    requires !p.ManagedShell? && "hooks" in root && root["hooks"].Obj? && (versioned ==> HasField(root, "version", Num(1)))
    requires forall i :: 0 <= i < |specs| ==> CleanAt(p, root["hooks"].fields, specs[i].event)
    ensures Merge(style, p, specs, versioned, root).Some?
    ensures Remove(p, EventsOf(specs), Merge(style, p, specs, versioned, root).value) == Some(root)
  {
    var h := root["hooks"].fields;
    MergeClean(style, p, specs, h);
    var g := MergeAll(style, p, specs, h).value;
    forall e ensures AtMostOneGroup(p, h, g, e) {
      assert AddsOneGroup(p, specs, h, g, e);
    }
    RemoveAllRestores(p, EventsOf(specs), h, g);
    var r := RemoveAll(p, EventsOf(specs), g).value;
    forall e ensures SameAt(h, r, e) {
      assert Restored(p, EventsOf(specs), h, g, r, e);
      assert AddsOneGroup(p, specs, h, g, e);
      if i :| 0 <= i < |specs| && specs[i].event == e {
        assert EventsOf(specs)[i] == e;
      }
    }
    SameEverywhere(h, r);
    assert root["hooks" := Obj(g)]["hooks" := Obj(h)] == root;
  }

  /** On clean events, a merge installs every spec exactly when the matchers agree. */
  lemma InstallsIffAgree(style: Style, p: Pattern, specs: seq<Spec>, h: Tree)
    requires !p.ManagedShell? && forall i :: 0 <= i < |specs| ==> CleanAt(p, h, specs[i].event)
    ensures MergeAll(style, p, specs, h).Some?
    ensures Agree(style, specs) <==> AllInstalled(style, p, specs, MergeAll(style, p, specs, h).value)
  {
    MergeClean(style, p, specs, h);
    var g := MergeAll(style, p, specs, h).value;
    if Agree(style, specs) {
      MergeInstallsAll(style, p, specs, h);
    } else {
      var i, j :| 0 <= i < j < |specs| && specs[i].event == specs[j].event && specs[i].matcher != "" && specs[j].matcher != "" && specs[i].matcher != specs[j].matcher;
      var e := specs[i].event;
      assert AddsOneGroup(p, specs, h, g, e);
      var m :| Listed(specs, e, m) && Installed(p, h, g, e, m);
      InstalledHas(p, h, g, e, m, specs[i].matcher);
      InstalledHas(p, h, g, e, m, specs[j].matcher);
    }
  }
}
