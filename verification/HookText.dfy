/**
 * What installing and removing hooks does to a configuration file, said in terms of the
 * text of its handlers: the "type", the "command" and the "args" each of them carries.
 */
module HookTexts {
  import opened Common
  import opened HookTrees

  // ---------------------------------------------------------------- handlers by their text

  /** The text under a key of an object. */
  function TextAt(j: Json, key: string): Option<string> {
    if j.Obj? && key in j.fields && j.fields[key].Str? then Some(j.fields[key].s) else None
  }

  /** The argument list is exactly these texts; an absent list is an empty one. */
  predicate ArgsAre(j: Json, args: seq<string>)
    requires j.Obj?
  {
    if "args" !in j.fields then args == []
    else
      && j.fields["args"].Arr? && |j.fields["args"].items| == |args|
      && forall i :: 0 <= i < |args| ==> j.fields["args"].items[i] == Str(args[i])
  }

  predicate Runs(j: Json, command: string) {
    TextAt(j, "type") == Some("command") && TextAt(j, "command") == Some(command)
  }

  /** The handler is the one the pattern stands for, going by its text alone. */
  ghost predicate Ours(p: Pattern, j: Json) {
    match p
    case ClaudeCommand(command, args) => Runs(j, command) && ArgsAre(j, args)
    case ShellCommand(command) => Runs(j, command)
    case ManagedShell(suffix, keep) => exists start: string :: start + suffix != keep && Runs(j, start + suffix)
  }

  lemma OursIff(p: Pattern, j: Json)
    ensures Matches(p, j) <==> Ours(p, j)
  {
    match p
    case ClaudeCommand(command, args) =>
      if Runs(j, command) {
        ArgsIff(j, args);
      }
    case ShellCommand(command) =>
    case ManagedShell(suffix, keep) =>
      if Matches(p, j) {
        var text := j.fields["command"].s;
        assert text == text[..|text| - |suffix|] + suffix;
      }
      if start: string :| start + suffix != keep && Runs(j, start + suffix) {
        assert (start + suffix)[|start|..] == suffix;
      }
  }

  lemma ArgsIff(j: Json, args: seq<string>)
    requires j.Obj?
    ensures ArgsMatch(j.fields, args) <==> ArgsAre(j, args)
  {
    if "args" in j.fields && j.fields["args"].Arr? {
      var items := j.fields["args"].items;
      if ArgsAre(j, args) {
        assert items == StrArgs(args);
      }
    }
  }

  /** The handler that is installed is a command of ours with a timeout of five, and carries arguments only for Claude. */
  lemma InstalledText(p: Pattern)
    requires !p.ManagedShell?
    ensures var h := HandlerFor(p);
      && Ours(p, h) && Runs(h, p.command) && "timeout" in h.fields && h.fields["timeout"] == Num(5)
      && h.fields.Keys == {"type", "command", "timeout"} + (if p.ClaudeCommand? && |p.args| > 0 then {"args"} else {})
  {
    HandlerMatches(p);
    OursIff(p, HandlerFor(p));
  }

  // ---------------------------------------------------------------- the handlers of an event

  /** The handlers that are not ours, in order. */
  ghost function Others(p: Pattern, handlers: seq<Json>): seq<Json> {
    if handlers == [] then []
    else (if Ours(p, handlers[0]) then [] else [handlers[0]]) + Others(p, handlers[1..])
  }

  /** The handlers of an event, group after group. */
  function HandlersAt(hooks: Tree, event: string): seq<Json> {
    Flatten(GroupsAt(hooks, event))
  }

  lemma {:induction false} OthersAreKept(p: Pattern, handlers: seq<Json>)
    ensures Keep(p, handlers) == Others(p, handlers)
    decreases |handlers|
  {
    if handlers != [] {
      var first, rest := handlers[0], handlers[1..];
      OursIff(p, first);
      OthersAreKept(p, rest);
      KeepAppend(p, [first], rest);
      assert handlers == [first] + rest;
      assert [first][..0] == [];
      assert Keep(p, [first]) == if Matches(p, first) then [] else [first];
    }
  }

  /**
   * Under the event there is a group, with this matcher if one is asked for, that holds a handler of ours;
   * a value of the wrong shape anywhere on the way is passed over.
   */
  ghost predicate Serves(p: Pattern, matcher: string, hooks: Tree, event: string) {
    && event in hooks && hooks[event].Arr?
    && exists g, k :: 0 <= g < |hooks[event].items| && HoldsOurs(p, matcher, hooks[event].items[g], k)
  }

  ghost predicate HoldsOurs(p: Pattern, matcher: string, group: Json, k: int) {
    && group.Obj? && (matcher != "" ==> TextAt(group, "matcher") == Some(matcher))
    && "hooks" in group.fields && group.fields["hooks"].Arr?
    && 0 <= k < |group.fields["hooks"].items| && Ours(p, group.fields["hooks"].items[k])
  }

  lemma HoldsIff(p: Pattern, matcher: string, group: Json)
    ensures GroupHas(p, matcher, group) <==> exists k :: HoldsOurs(p, matcher, group, k)
  {
    var handlers := HandlersOf(group);
    forall k | 0 <= k < |handlers| ensures Matches(p, handlers[k]) <==> Ours(p, handlers[k]) {
      OursIff(p, handlers[k]);
    }
    if GroupHas(p, matcher, group) {
      var k :| 0 <= k < |handlers| && Matches(p, handlers[k]);
      assert HoldsOurs(p, matcher, group, k);
    }
  }

  lemma ServesIff(p: Pattern, matcher: string, hooks: Tree, event: string)
    ensures EventHas(p, matcher, hooks, event) <==> Serves(p, matcher, hooks, event)
  {
    var groups := GroupsAt(hooks, event);
    forall g | 0 <= g < |groups| ensures GroupHas(p, matcher, groups[g]) <==> exists k :: HoldsOurs(p, matcher, groups[g], k) {
      HoldsIff(p, matcher, groups[g]);
    }
  }

  // ---------------------------------------------------------------- removal

  /** Only the "hooks" entry of the file may differ. */
  ghost predicate SameElsewhere(root: Tree, after: Tree) {
    forall key :: key != "hooks" ==> SameAt(root, after, key)
  }

  /**
   * Removal keeps, in order, exactly the handlers of the listed events that are not ours by their text,
   * and leaves every other event and every other entry of the file alone.
   */
  lemma RemovalByText(p: Pattern, events: seq<string>, root: Tree, event: string)
    requires Remove(p, events, root).Some?
    ensures HooksOf(root).Some? && HooksOf(Remove(p, events, root).value).Some?
    ensures var after := Remove(p, events, root).value; var h, g := HooksOf(root).value, HooksOf(after).value;
      && SameElsewhere(root, after)
      && (if event in events then HandlersAt(g, event) == Others(p, HandlersAt(h, event)) && !Serves(p, "", g, event) else SameAt(h, g, event))
  {
    var after := Remove(p, events, root).value;
    var h, g := HooksOf(root).value, HooksOf(after).value;
    OthersAreKept(p, HandlersAt(h, event));
    ServesIff(p, "", g, event);
    if "hooks" in root {
      RemoveFilters(p, events, h, event);
    } else if event in events {
      assert GroupsAt(h, event) == [];
    }
  }

  /** An event that can be edited: absent, or an array of objects whose "hooks", if present, are arrays. */
  ghost predicate Editable(hooks: Tree, event: string) {
    event in hooks ==>
      && hooks[event].Arr?
      && forall g :: 0 <= g < |hooks[event].items| ==>
           hooks[event].items[g].Obj? && ("hooks" in hooks[event].items[g].fields ==> hooks[event].items[g].fields["hooks"].Arr?)
  }

  lemma EditableIff(hooks: Tree, event: string)
    ensures Removable(hooks, event) <==> Editable(hooks, event)
  {
    if event in hooks && hooks[event].Arr? {
      var groups := hooks[event].items;
      forall g | 0 <= g < |groups|
        ensures GoodGroup(groups[g]) <==> groups[g].Obj? && ("hooks" in groups[g].fields ==> groups[g].fields["hooks"].Arr?)
      {
      }
    }
  }

  lemma RemoveStaysEditable(p: Pattern, hooks: Tree, event: string, e: string)
    requires Removable(hooks, event)
    ensures Removable(RemoveEvent(p, hooks, event), e) <==> Removable(hooks, e)
  {
    if event in hooks {
      RemovalIsFilter(p, hooks[event].items);
    }
    RemoveEventFilters(p, hooks, event);
    if e != event {
      assert SameAt(hooks, RemoveEvent(p, hooks, event), e);
    }
  }

  lemma {:induction false} RemoveAllStaysEditable(p: Pattern, events: seq<string>, hooks: Tree, e: string)
    requires RemoveAll(p, events, hooks).Some?
    ensures Removable(RemoveAll(p, events, hooks).value, e) <==> Removable(hooks, e)
  {
    if events != [] {
      var front, last := events[..|events| - 1], events[|events| - 1];
      RemoveAllStaysEditable(p, front, hooks, e);
      RemoveStaysEditable(p, RemoveAll(p, front, hooks).value, last, e);
    }
  }

  ghost predicate AllRemovable(hooks: Tree, events: seq<string>) {
    forall i :: 0 <= i < |events| ==> Removable(hooks, events[i])
  }

  lemma {:induction false} RemoveAllFailsIff(p: Pattern, events: seq<string>, hooks: Tree)
    ensures RemoveAll(p, events, hooks).Some? <==> AllRemovable(hooks, events)
  {
    if events != [] {
      var front, last := events[..|events| - 1], events[|events| - 1];
      RemoveAllFailsIff(p, front, hooks);
      AllRemovableSnoc(hooks, events, front, last);
      if RemoveAll(p, front, hooks).Some? {
        RemoveAllStaysEditable(p, front, hooks, last);
      }
    }
  }

  lemma AllRemovableSnoc(hooks: Tree, events: seq<string>, front: seq<string>, last: string)
    requires events == front + [last]
    ensures AllRemovable(hooks, events) <==> AllRemovable(hooks, front) && Removable(hooks, last)
  {
    if AllRemovable(hooks, events) {
      assert events[|front|] == last;
      forall i | 0 <= i < |front| ensures Removable(hooks, front[i]) {
        assert events[i] == front[i];
      }
    }
  }

  /** Removal is refused exactly when "hooks" is not an object or a listed event cannot be edited. */
  lemma RemovalFailsIff(p: Pattern, events: seq<string>, root: Tree)
    ensures Remove(p, events, root).None? <==>
      && "hooks" in root
      && (root["hooks"].Obj? ==> exists i :: 0 <= i < |events| && !Editable(root["hooks"].fields, events[i]))
  {
    if "hooks" in root && root["hooks"].Obj? {
      var h := root["hooks"].fields;
      RemoveAllFailsIff(p, events, h);
      forall i | 0 <= i < |events| ensures Removable(h, events[i]) <==> Editable(h, events[i]) {
        EditableIff(h, events[i]);
      }
    }
  }

  // ---------------------------------------------------------------- merging

  /** Appending a group of ours adds no handler of anyone else. */
  lemma AppendKeepsOthers(p: Pattern, matcher: string, hooks: Tree, event: string)
    requires !p.ManagedShell? && ArrayAt(hooks, event).Some?
    ensures Keep(p, HandlersAt(AppendGroup(p, matcher, hooks, event), event)) == Keep(p, HandlersAt(hooks, event))
  {
    var groups, ours := GroupsAt(hooks, event), GroupFor(p, matcher);
    assert GroupsAt(AppendGroup(p, matcher, hooks, event), event) == groups + [ours];
    FlattenLast(groups + [ours], groups, ours);
    KeepAppend(p, Flatten(groups), HandlersOf(ours));
    HandlerMatches(p);
    assert HandlersOf(ours) == [HandlerFor(p)];
    assert [HandlerFor(p)][..0] == [];
    assert Keep(p, HandlersOf(ours)) == [];
  }

  lemma StepKeepsOthers(style: Style, p: Pattern, spec: Spec, hooks: Tree, event: string)
    requires !p.ManagedShell? && MergeSpec(style, p, spec, hooks).Some?
    ensures Keep(p, HandlersAt(MergeSpec(style, p, spec, hooks).value, event)) == Keep(p, HandlersAt(hooks, event))
  {
    var e := spec.event;
    StepInstalls(style, p, spec, hooks);
    if event != e {
      assert SameAt(hooks, MergeSpec(style, p, spec, hooks).value, event);
    } else if EventHas(p, Asked(style, spec), hooks, e) {
    } else if style.Claude? {
      AppendKeepsOthers(p, spec.matcher, hooks, e);
    } else {
      RemoveEventFilters(p, hooks, e);
      var flat := HandlersAt(hooks, e);
      KeepNone(p, flat);
      KeepNone(p, Keep(p, flat));
      AppendKeepsOthers(p, spec.matcher, RemoveEvent(p, hooks, e), e);
    }
  }

  lemma {:induction false} MergeKeepsOthers(style: Style, p: Pattern, specs: seq<Spec>, hooks: Tree, event: string)
    requires !p.ManagedShell? && MergeAll(style, p, specs, hooks).Some?
    ensures Keep(p, HandlersAt(MergeAll(style, p, specs, hooks).value, event)) == Keep(p, HandlersAt(hooks, event))
  {
    if specs != [] {
      var front, last := specs[..|specs| - 1], specs[|specs| - 1];
      MergeKeepsOthers(style, p, front, hooks, event);
      StepKeepsOthers(style, p, last, MergeAll(style, p, front, hooks).value, event);
    }
  }

  lemma OthersByText(style: Style, p: Pattern, specs: seq<Spec>, h: Tree)
    requires !p.ManagedShell? && MergeAll(style, p, specs, h).Some?
    ensures forall event :: Others(p, HandlersAt(MergeAll(style, p, specs, h).value, event)) == Others(p, HandlersAt(h, event))
  {
    var g := MergeAll(style, p, specs, h).value;
    forall event ensures Others(p, HandlersAt(g, event)) == Others(p, HandlersAt(h, event)) {
      MergeKeepsOthers(style, p, specs, h, event);
      OthersAreKept(p, HandlersAt(g, event));
      OthersAreKept(p, HandlersAt(h, event));
    }
  }

  ghost predicate AllServed(style: Style, p: Pattern, specs: seq<Spec>, hooks: Tree) {
    forall i :: 0 <= i < |specs| ==> Serves(p, if style.Claude? then "" else specs[i].matcher, hooks, specs[i].event)
  }

  lemma ServedByText(style: Style, p: Pattern, specs: seq<Spec>, h: Tree)
    requires !p.ManagedShell? && MergeAll(style, p, specs, h).Some? && Agree(style, specs)
    ensures AllServed(style, p, specs, MergeAll(style, p, specs, h).value)
  {
    var g := MergeAll(style, p, specs, h).value;
    MergeInstallsAll(style, p, specs, h);
    forall i | 0 <= i < |specs| ensures Serves(p, if style.Claude? then "" else specs[i].matcher, g, specs[i].event) {
      ServesIff(p, if style.Claude? then "" else specs[i].matcher, g, specs[i].event);
    }
  }

  /** A merge edits the "hooks" entry, and adds a "version" where one is required. */
  lemma MergeElsewhere(style: Style, p: Pattern, specs: seq<Spec>, versioned: bool, root: Tree, after: Tree)
    requires !p.ManagedShell? && Merge(style, p, specs, versioned, root) == Some(after)
    ensures HooksOf(root).Some? && HooksOf(after).Some? && MergeAll(style, p, specs, HooksOf(root).value) == HooksOf(after)
    ensures forall key :: key != "hooks" && key != "version" ==> SameAt(root, after, key)
    ensures if versioned then HasField(after, "version", Num(1)) else SameAt(root, after, "version")
  {
  }

  /**
   * A successful merge leaves every event with the handlers that are not ours, in order, and changes
   * nothing in the file but "hooks" and a missing "version". If the matchers agree, every event then has
   * a group under the matcher asked for that holds a handler running our command, by its text.
   */
  lemma MergeByText(style: Style, p: Pattern, specs: seq<Spec>, versioned: bool, root: Tree)
    requires !p.ManagedShell? && Merge(style, p, specs, versioned, root).Some?
    ensures HooksOf(root).Some? && HooksOf(Merge(style, p, specs, versioned, root).value).Some?
    ensures var after := Merge(style, p, specs, versioned, root).value; var h, g := HooksOf(root).value, HooksOf(after).value;
      && (forall event :: Others(p, HandlersAt(g, event)) == Others(p, HandlersAt(h, event)))
      && (forall key :: key != "hooks" && key != "version" ==> SameAt(root, after, key))
      && (if versioned then HasField(after, "version", Num(1)) else SameAt(root, after, "version"))
      && (Agree(style, specs) ==> AllServed(style, p, specs, g))
  {
    var after := Merge(style, p, specs, versioned, root).value;
    var h, g := HooksOf(root).value, HooksOf(after).value;
    MergeElsewhere(style, p, specs, versioned, root, after);
    OthersByText(style, p, specs, h);
    if Agree(style, specs) {
      ServedByText(style, p, specs, h);
    }
  }

  /** The event's value lets this style of merge append a group. */
  ghost predicate Fit(style: Style, hooks: Tree, event: string) {
    if style.Claude? then event in hooks ==> hooks[event].Arr? else Editable(hooks, event)
  }

  ghost predicate SameOrFit(style: Style, h: Tree, g: Tree, event: string) {
    SameAt(h, g, event) || (Fit(style, h, event) && Fit(style, g, event))
  }

  /** The event is not served yet, and nothing can be appended to it. */
  ghost predicate Refused(style: Style, p: Pattern, spec: Spec, hooks: Tree) {
    !Fit(style, hooks, spec.event) && !Serves(p, if style.Claude? then "" else spec.matcher, hooks, spec.event)
  }

  lemma FitChain(style: Style, h: Tree, g: Tree, x: Tree, event: string)
    requires SameOrFit(style, h, g, event) && SameOrFit(style, g, x, event)
    ensures SameOrFit(style, h, x, event)
  {
    assert SameAt(h, g, event) ==> (Fit(style, h, event) <==> Fit(style, g, event));
    assert SameAt(g, x, event) ==> (Fit(style, g, event) <==> Fit(style, x, event));
  }

  lemma StepFails(style: Style, p: Pattern, spec: Spec, hooks: Tree)
    requires !p.ManagedShell?
    ensures MergeSpec(style, p, spec, hooks).None? <==> Refused(style, p, spec, hooks)
  {
    EditableIff(hooks, spec.event);
    ServesIff(p, Asked(style, spec), hooks, spec.event);
  }

  lemma StepStaysFit(style: Style, p: Pattern, spec: Spec, hooks: Tree, event: string)
    requires !p.ManagedShell? && MergeSpec(style, p, spec, hooks).Some?
    ensures SameOrFit(style, hooks, MergeSpec(style, p, spec, hooks).value, event)
  {
    var g := MergeSpec(style, p, spec, hooks).value;
    StepInstalls(style, p, spec, hooks);
    if event == spec.event && !EventHas(p, Asked(style, spec), hooks, event) {
      EditableIff(hooks, event);
      EditableIff(g, event);
      if style.Shell? {
        RemoveStaysEditable(p, hooks, event, event);
        AppendStaysEditable(p, spec.matcher, RemoveEvent(p, hooks, event), event);
      }
    }
  }

  lemma AppendStaysEditable(p: Pattern, matcher: string, hooks: Tree, event: string)
    requires !p.ManagedShell? && Removable(hooks, event)
    ensures Removable(AppendGroup(p, matcher, hooks, event), event)
  {
    InstalledGroupGoes(p, matcher);
  }

  lemma {:induction false} MergeStaysFit(style: Style, p: Pattern, specs: seq<Spec>, h: Tree, event: string)
    requires !p.ManagedShell? && MergeAll(style, p, specs, h).Some?
    ensures SameOrFit(style, h, MergeAll(style, p, specs, h).value, event)
  {
    if specs != [] {
      var front, last := specs[..|specs| - 1], specs[|specs| - 1];
      var g := MergeAll(style, p, front, h).value;
      MergeStaysFit(style, p, front, h, event);
      StepStaysFit(style, p, last, g, event);
      FitChain(style, h, g, MergeSpec(style, p, last, g).value, event);
    }
  }

  ghost predicate AnyRefused(style: Style, p: Pattern, specs: seq<Spec>, hooks: Tree) {
    exists i :: 0 <= i < |specs| && Refused(style, p, specs[i], hooks)
  }

  lemma AnyRefusedSnoc(style: Style, p: Pattern, specs: seq<Spec>, front: seq<Spec>, last: Spec, hooks: Tree)
    requires specs == front + [last]
    ensures AnyRefused(style, p, specs, hooks) <==> AnyRefused(style, p, front, hooks) || Refused(style, p, last, hooks)
  {
    if i :| 0 <= i < |front| && Refused(style, p, front[i], hooks) {
      assert specs[i] == front[i];
    }
    assert specs[|front|] == last;
  }

  lemma {:induction false} MergeAllFailsIff(style: Style, p: Pattern, specs: seq<Spec>, h: Tree)
    requires !p.ManagedShell?
    ensures MergeAll(style, p, specs, h).None? <==> AnyRefused(style, p, specs, h)
  {
    if specs != [] {
      var front, last := specs[..|specs| - 1], specs[|specs| - 1];
      MergeAllFailsIff(style, p, front, h);
      AnyRefusedSnoc(style, p, specs, front, last, h);
      StepFails(style, p, last, h);
      if MergeAll(style, p, front, h).Some? {
        MergeStaysFit(style, p, front, h, last.event);
        LastDecides(style, p, last, h, MergeAll(style, p, front, h).value);
      }
    }
  }

  /** Whether a spec can be merged does not depend on the specs merged before it. */
  lemma LastDecides(style: Style, p: Pattern, spec: Spec, h: Tree, g: Tree)
    requires !p.ManagedShell? && SameOrFit(style, h, g, spec.event)
    ensures MergeSpec(style, p, spec, g).None? <==> MergeSpec(style, p, spec, h).None?
  {
    StepFails(style, p, spec, h);
    StepFails(style, p, spec, g);
  }

  /**
   * A merge is refused exactly for a version other than 1, a "hooks" that is not an object, or an event
   * that is not served yet and whose value has the wrong shape to append to.
   */
  lemma MergeFailsIff(style: Style, p: Pattern, specs: seq<Spec>, versioned: bool, root: Tree)
    requires !p.ManagedShell?
    ensures Merge(style, p, specs, versioned, root).None? <==>
      || (versioned && "version" in root && root["version"] != Num(1))
      || ("hooks" in root && !root["hooks"].Obj?)
      || AnyRefused(style, p, specs, if "hooks" in root && root["hooks"].Obj? then root["hooks"].fields else map[])
  {
    MergeAllFailsIff(style, p, specs, if "hooks" in root && root["hooks"].Obj? then root["hooks"].fields else map[]);
  }
}
