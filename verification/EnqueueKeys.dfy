/**
 * Idempotent enqueue of the local queue: a reservation marker per idempotency key,
 * created exclusively, then filled with the item id, then backed by the item itself.
 *
 * Producers and cleaners are separate processes. Each of their file operations is one
 * step, and any of them may die between two of them.
 */
module EnqueueKeys {
  import opened Common
  import opened Protocol
  import R = Receipts

  /** A marker file: the item id of the call that created it, and whether the id has been written into it. */
  datatype Marker = Marker(id: nat, written: bool)

  datatype Files = Files(markers: map<Key, Marker>, items: map<nat, Event>)

  /** A waiting producer that found the marker too old is about to remove whatever stands in its place. */
  datatype Producer =
    | Reserving(event: Event, id: nat)
    | Opened(event: Event, id: nat)
    | Marked(event: Event, id: nat)
    | Waiting(event: Event, id: nat)
    | Checking(event: Event, id: nat, found: nat)
    | Removing(event: Event, id: nat, judged: nat)
    | Enqueued(event: Event, id: nat)
    | Duplicate(event: Event, id: nat, existing: nat)
    | NotYet(event: Event, id: nat)

  /** A clean-up that has removed an item and is about to remove its marker. */
  datatype Cleaner = Cleaner(key: Key, id: nat)

  /** The last three are history variables: the event each random id was drawn for, every item
      written so far, and every key whose item was cleaned up. */
  datatype State = State(
    files: Files,
    producers: map<nat, Producer>,
    cleaners: map<nat, Cleaner>,
    issued: map<nat, Event>,
    ever: set<R.Item>,
    forgotten: set<Key>)

  datatype Label =
    | Begin(p: nat, event: Event, id: nat)
    | Run(p: nat)
    | Judge(p: nat)
    | TimeOut(p: nat)
    | Die(p: nat)
    | CleanItem(c: nat, item: nat)
    | CleanMarker(c: nat)
    | CleanerDies(c: nat)

  function KeyOf(p: Producer): Key {
    p.event.idempotencyKey
  }

  predicate MarkerBacked(f: Files, k: Key) {
    k in f.markers && f.markers[k].written && f.markers[k].id in f.items
  }

  /** A process writes into the file it created, which may no longer be the one at the marker's path. */
  function WriteId(markers: map<Key, Marker>, k: Key, id: nat): map<Key, Marker> {
    if k in markers && markers[k].id == id then markers[k := Marker(id, true)] else markers
  }

  /** The next file operation of a producer. */
  function Step(f: Files, p: Producer): (Files, Producer) {
    var k := KeyOf(p);
    match p
    case Reserving(e, id) =>
      if k in f.markers then (f, Waiting(e, id))
      else (f.(markers := f.markers[k := Marker(id, false)]), Opened(e, id))
    case Opened(e, id) => (f.(markers := WriteId(f.markers, k, id)), Marked(e, id))
    case Marked(e, id) => (f.(items := f.items[id := e]), Enqueued(e, id))
    case Waiting(e, id) =>
      if k !in f.markers then (f, Reserving(e, id))
      else if !f.markers[k].written then (f, p)
      else (f, Checking(e, id, f.markers[k].id))
    case Checking(e, id, found) =>
      (f, if found in f.items then Duplicate(e, id, found) else Waiting(e, id))
    case Removing(e, id, _) => (f.(markers := f.markers - {k}), Reserving(e, id))
    case _ => (f, p)
  }

  predicate Writing(p: Producer) {
    p.Opened? || p.Marked?
  }

  /** The process that created the marker is still between its file operations. */
  ghost predicate WriterAlive(s: State, k: Key) {
    k in s.files.markers && exists p :: p in s.producers && s.producers[p].id == s.files.markers[k].id && Writing(s.producers[p])
  }

  ghost predicate Enabled(s: State, l: Label) {
    match l
    case Begin(p, event, id) => p !in s.producers && id != 0 && id !in s.issued
    case Run(p) => p in s.producers
    case Judge(p) => p in s.producers && s.producers[p].Waiting? && KeyOf(s.producers[p]) in s.files.markers
    case TimeOut(p) => p in s.producers && s.producers[p].Waiting?
    case Die(p) => p in s.producers
    case CleanItem(c, item) => c !in s.cleaners && item in s.files.items
    case CleanMarker(c) => c in s.cleaners
    case CleanerDies(c) => c in s.cleaners
  }

  ghost function After(s: State, l: Label): State
    requires Enabled(s, l)
  {
    match l
    case Begin(p, event, id) => s.(producers := s.producers[p := Reserving(event, id)], issued := s.issued[id := event])
    case Run(p) =>
      var (f, next) := Step(s.files, s.producers[p]);
      s.(files := f,
         producers := s.producers[p := next],
         ever := if s.producers[p].Marked? then s.ever + {R.Item(next.id, next.event)} else s.ever)
    case Judge(p) =>
      var own := s.producers[p];
      s.(producers := s.producers[p := Removing(own.event, own.id, s.files.markers[KeyOf(own)].id)])
    case TimeOut(p) => s.(producers := s.producers[p := NotYet(s.producers[p].event, s.producers[p].id)])
    case Die(p) => s.(producers := s.producers - {p})
    case CleanItem(c, item) =>
      var k := s.files.items[item].idempotencyKey;
      s.(files := s.files.(items := s.files.items - {item}),
         cleaners := s.cleaners[c := Cleaner(k, item)],
         forgotten := s.forgotten + {k})
    case CleanMarker(c) =>
      s.(files := s.files.(markers := s.files.markers - {s.cleaners[c].key}), cleaners := s.cleaners - {c})
    case CleanerDies(c) => s.(cleaners := s.cleaners - {c})
  }

  ghost predicate Init(s: State) {
    s == State(Files(map[], map[]), map[], map[], map[], {}, {})
  }

  ghost predicate IsRun(states: seq<State>, labels: seq<Label>) {
    && |states| == |labels| + 1
    && Init(states[0])
    && forall i :: 0 <= i < |labels| ==>
         Enabled(states[i], labels[i]) && states[i + 1] == After(states[i], labels[i])
  }

  // ---------------------------------------------------------------- removals

  /** The step removes the marker file of a key. */
  ghost predicate IsRemoval(s: State, l: Label)
    requires Enabled(s, l)
  {
    l.CleanMarker? || (l.Run? && s.producers[l.p].Removing?)
  }

  ghost function RemovedKey(s: State, l: Label): Key
    requires Enabled(s, l) && IsRemoval(s, l)
  {
    if l.CleanMarker? then s.cleaners[l.c].key else KeyOf(s.producers[l.p])
  }

  /** What stands there, if anything, is backed by no item, and its writer is gone. */
  ghost predicate Abandoned(s: State, k: Key) {
    k in s.files.markers ==> !MarkerBacked(s.files, k) && !WriterAlive(s, k)
  }

  ghost predicate Careful(s: State, l: Label)
    requires Enabled(s, l)
  {
    IsRemoval(s, l) ==> Abandoned(s, RemovedKey(s, l))
  }

  ghost predicate CarefulRun(states: seq<State>, labels: seq<Label>) {
    IsRun(states, labels) && forall i :: 0 <= i < |labels| ==> Careful(states[i], labels[i])
  }

  // ---------------------------------------------------------------- invariant

  /** A live item is the one its key's marker names. */
  ghost predicate MarkersInv(f: Files) {
    forall id :: id in f.items ==>
      f.items[id].idempotencyKey in f.markers && f.markers[f.items[id].idempotencyKey] == Marker(id, true)
  }

  /** A producer between its operations owns the marker it created. */
  ghost predicate ProducerOk(f: Files, issued: map<nat, Event>, own: Producer) {
    && own.id in issued && issued[own.id] == own.event
    && var k := KeyOf(own);
       match own
       case Opened(_, id) => k in f.markers && f.markers[k] == Marker(id, false)
       case Marked(_, id) => k in f.markers && f.markers[k] == Marker(id, true)
       case Checking(_, _, found) => found in issued && issued[found].idempotencyKey == k
       case _ => true
  }

  ghost predicate ProducersInv(s: State) {
    forall p :: p in s.producers ==> ProducerOk(s.files, s.issued, s.producers[p])
  }

  ghost predicate IdsInv(producers: map<nat, Producer>, ever: set<R.Item>) {
    && (forall p, q :: p in producers && q in producers && producers[p].id == producers[q].id ==> p == q)
    && (forall p, i :: p in producers && i in ever && i.id == producers[p].id ==> producers[p].Enqueued?)
  }

  ghost predicate HistoryInv(f: Files, issued: map<nat, Event>, ever: set<R.Item>, forgotten: set<Key>) {
    && 0 !in issued
    && (forall k :: k in f.markers ==> f.markers[k].id in issued && issued[f.markers[k].id].idempotencyKey == k)
    && (forall i :: i in ever ==> i.id in issued && i.event == issued[i.id])
    && (forall id :: id in f.items ==> R.Item(id, f.items[id]) in ever)
    && (forall i :: i in ever && i.event.idempotencyKey !in forgotten ==> i.id in f.items)
  }

  ghost predicate Inv(s: State) {
    && MarkersInv(s.files)
    && ProducersInv(s)
    && IdsInv(s.producers, s.ever)
    && HistoryInv(s.files, s.issued, s.ever, s.forgotten)
  }

  // ---------------------------------------------------------------- preservation

  lemma RunMarkers(s: State, p: nat)
    requires Inv(s) && p in s.producers && Careful(s, Run(p))
    ensures MarkersInv(After(s, Run(p)).files)
  {
    assert ProducerOk(s.files, s.issued, s.producers[p]);
  }

  lemma RunProducers(s: State, p: nat)
    requires Inv(s) && p in s.producers && Careful(s, Run(p))
    ensures ProducersInv(After(s, Run(p)))
  {
    var t := After(s, Run(p));
    assert ProducerOk(s.files, s.issued, s.producers[p]);
    forall q | q in t.producers ensures ProducerOk(t.files, t.issued, t.producers[q]) {
      assert ProducerOk(s.files, s.issued, s.producers[q]);
    }
  }

  lemma RunHistory(s: State, p: nat)
    requires Inv(s) && p in s.producers
    ensures var t := After(s, Run(p)); HistoryInv(t.files, t.issued, t.ever, t.forgotten)
  {
    assert ProducerOk(s.files, s.issued, s.producers[p]);
  }

  lemma CleanItemInv(s: State, c: nat, item: nat)
    requires Inv(s) && Enabled(s, CleanItem(c, item))
    ensures Inv(After(s, CleanItem(c, item)))
  {
    var t := After(s, CleanItem(c, item));
    forall q | q in t.producers ensures ProducerOk(t.files, t.issued, t.producers[q]) {
      assert ProducerOk(s.files, s.issued, s.producers[q]);
    }
  }

  lemma CleanMarkerInv(s: State, c: nat)
    requires Inv(s) && Enabled(s, CleanMarker(c)) && Careful(s, CleanMarker(c))
    ensures Inv(After(s, CleanMarker(c)))
  {
    var t := After(s, CleanMarker(c));
    forall q | q in t.producers ensures ProducerOk(t.files, t.issued, t.producers[q]) {
      assert ProducerOk(s.files, s.issued, s.producers[q]);
    }
  }

  lemma BeginInv(s: State, p: nat, event: Event, id: nat)
    requires Inv(s) && Enabled(s, Begin(p, event, id))
    ensures Inv(After(s, Begin(p, event, id)))
  {
  }

  lemma StopInv(s: State, l: Label)
    requires Inv(s) && Enabled(s, l) && (l.Judge? || l.TimeOut? || l.Die? || l.CleanerDies?)
    ensures Inv(After(s, l))
  {
  }

  lemma InvStep(s: State, l: Label)
    requires Inv(s) && Enabled(s, l) && Careful(s, l)
    ensures Inv(After(s, l))
  {
    match l
    case Begin(p, event, id) => BeginInv(s, p, event, id);
    case Run(p) =>
      RunMarkers(s, p);
      RunProducers(s, p);
      RunHistory(s, p);
    case CleanItem(c, item) => CleanItemInv(s, c, item);
    case CleanMarker(c) => CleanMarkerInv(s, c);
    case _ => StopInv(s, l);
  }

  lemma {:induction false} RunInv(states: seq<State>, labels: seq<Label>, n: nat)
    requires CarefulRun(states, labels) && n < |states|
    ensures Inv(states[n])
  {
    if n > 0 {
      RunInv(states, labels, n - 1);
      InvStep(states[n - 1], labels[n - 1]);
    }
  }

  // ---------------------------------------------------------------- what producers get

  ghost predicate OneLivePerKey(f: Files) {
    forall a, b :: a in f.items && b in f.items && f.items[a].idempotencyKey == f.items[b].idempotencyKey ==> a == b
  }

  /** The item behind each backed marker. */
  ghost function Live(f: Files): map<Key, R.Item> {
    map k | k in f.markers && MarkerBacked(f, k) :: R.Item(f.markers[k].id, f.items[f.markers[k].id])
  }

  /** The queue as the rest of the system sees it. */
  ghost function Abstract(s: State): R.LocalQueue {
    R.LocalQueue(Live(s.files), s.ever, s.forgotten)
  }

  ghost predicate OnlyMarker(f: Files, k: Key, id: nat) {
    forall other :: other in f.markers && f.markers[other].id == id ==> other == k
  }

  lemma LiveGains(f: Files, k: Key, id: nat, e: Event)
    requires k in f.markers && f.markers[k] == Marker(id, true) && OnlyMarker(f, k, id)
    ensures Live(f.(items := f.items[id := e])) == Live(f)[k := R.Item(id, e)]
  {
    var g := f.(items := f.items[id := e]);
    assert forall other :: other in f.markers && other != k ==> (MarkerBacked(g, other) <==> MarkerBacked(f, other));
  }

  lemma LiveLoses(f: Files, k: Key, id: nat)
    requires k in f.markers && f.markers[k].id == id && OnlyMarker(f, k, id)
    ensures Live(f.(items := f.items - {id})) == Live(f) - {k}
  {
    var g := f.(items := f.items - {id});
    assert forall other :: other in f.markers && other != k ==> (MarkerBacked(g, other) <==> MarkerBacked(f, other));
  }

  /** Touching the marker of a key without a live item shows nothing. */
  lemma LiveKeeps(f: Files, g: Files, k: Key)
    requires g.items == f.items && !MarkerBacked(f, k) && !MarkerBacked(g, k)
    requires g.markers - {k} == f.markers - {k}
    ensures Live(g) == Live(f)
  {
    forall other | other != k ensures other in g.markers <==> other in f.markers
      ensures other in f.markers ==> g.markers[other] == f.markers[other]
    {
      assert other in g.markers - {k} <==> other in f.markers - {k};
    }
  }

  /** Every live item is visible, and under its own key. */
  lemma AbstractShowsItems(s: State)
    requires Inv(s)
    ensures forall id :: id in s.files.items ==>
      var k := s.files.items[id].idempotencyKey;
      k in Abstract(s).live && Abstract(s).live[k] == R.Item(id, s.files.items[id])
    ensures forall k :: k in Abstract(s).live ==>
      Abstract(s).live[k].id in s.files.items && Abstract(s).live[k].event.idempotencyKey == k
    ensures R.QueueInv(Abstract(s))
  {
    forall k | k in Abstract(s).live
      ensures Abstract(s).live[k].event.idempotencyKey == k && Abstract(s).live[k] in s.ever
    {
      var id := s.files.markers[k].id;
      assert R.Item(id, s.files.items[id]) in s.ever;
    }
  }

  /** Writing the item is the instant of a fresh enqueue: the key had no live item and now has this one. */
  lemma ItemWriteRefines(s: State, p: nat)
    requires Inv(s) && p in s.producers && s.producers[p].Marked?
    ensures var own := s.producers[p];
      && R.Fresh(Abstract(s), own.id)
      && KeyOf(own) !in Abstract(s).live
      && R.EnqueueEvent(Abstract(s), own.event, own.id) == (Abstract(After(s, Run(p))), own.id)
  {
    var own := s.producers[p];
    assert ProducerOk(s.files, s.issued, own);
    LiveGains(s.files, KeyOf(own), own.id, own.event);
  }

  /** A duplicate call returns the id of the live item of its key. */
  lemma DuplicateRefines(s: State, p: nat)
    requires Inv(s) && p in s.producers && s.producers[p].Checking? && s.producers[p].found in s.files.items
    ensures var own := s.producers[p];
      && After(s, Run(p)).producers[p] == Duplicate(own.event, own.id, own.found)
      && Abstract(After(s, Run(p))) == Abstract(s)
      && KeyOf(own) in Abstract(s).live
      && R.EnqueueEvent(Abstract(s), own.event, own.id) == (Abstract(s), own.found)
  {
    var own := s.producers[p];
    assert ProducerOk(s.files, s.issued, own);
    assert R.Item(own.found, s.files.items[own.found]) in s.ever;
    AbstractShowsItems(s);
  }

  /** A producer's other file operations are invisible. */
  lemma MarkerStepsInvisible(s: State, p: nat)
    requires Inv(s) && p in s.producers && !s.producers[p].Marked? && Careful(s, Run(p))
    ensures Live(Step(s.files, s.producers[p]).0) == Live(s.files)
  {
    var own := s.producers[p];
    assert ProducerOk(s.files, s.issued, own);
    if own.Opened? || own.Removing? || (own.Reserving? && KeyOf(own) !in s.files.markers) {
      if !own.Removing? {
        UnbackedItem(s, p);
      }
      LiveKeeps(s.files, Step(s.files, own).0, KeyOf(own));
    }
  }

  lemma UnbackedItem(s: State, p: nat)
    requires Inv(s) && p in s.producers && (s.producers[p].Opened? || s.producers[p].Reserving?)
    ensures s.producers[p].id !in s.files.items
  {
    assert forall i :: i in s.ever ==> i.id != s.producers[p].id;
    assert forall id :: id in s.files.items ==> R.Item(id, s.files.items[id]) in s.ever;
  }

  /** Everything but an item write and the removal of an item is invisible, deaths and removed markers included. */
  lemma OtherStepsInvisible(s: State, l: Label)
    requires Inv(s) && Enabled(s, l) && Careful(s, l) && !l.CleanItem?
    requires l.Run? ==> !s.producers[l.p].Marked?
    ensures Abstract(After(s, l)) == Abstract(s)
  {
    match l
    case Run(p) => MarkerStepsInvisible(s, p);
    case CleanMarker(c) => LiveKeeps(s.files, After(s, l).files, s.cleaners[c].key);
    case _ =>
  }

  lemma ItemOwnsMarker(s: State, id: nat)
    requires MarkersInv(s.files) && HistoryInv(s.files, s.issued, s.ever, s.forgotten) && id in s.files.items
    ensures var k := s.files.items[id].idempotencyKey;
      k in s.files.markers && s.files.markers[k].id == id && OnlyMarker(s.files, k, id) && k in Live(s.files)
  {
    assert R.Item(id, s.files.items[id]) in s.ever;
  }

  ghost function Forgets(q: R.LocalQueue, k: Key): R.LocalQueue {
    q.(live := q.live - {k}, forgotten := q.forgotten + {k})
  }

  /** A clean-up forgets the item at the instant it removes it, whatever becomes of the marker. */
  lemma CleanupRefines(s: State, c: nat, item: nat)
    requires Inv(s) && Enabled(s, CleanItem(c, item))
    ensures var k := s.files.items[item].idempotencyKey;
      k in Abstract(s).live && Abstract(After(s, CleanItem(c, item))) == Forgets(Abstract(s), k)
  {
    ItemOwnsMarker(s, item);
    LiveLoses(s.files, s.files.items[item].idempotencyKey, item);
  }

  // ---------------------------------------------------------------- the queue the receipt machine uses

  /** A step of the local queue: nothing, a fresh enqueue, or the clean-up of a live item. */
  ghost predicate QueueMove(q: R.LocalQueue, next: R.LocalQueue) {
    || next == q
    || (exists e: Event, id: nat :: R.Fresh(q, id) && e.idempotencyKey !in q.live && R.EnqueueEvent(q, e, id) == (next, id))
    || (exists k: Key :: k in q.live && next == Forgets(q, k))
  }

  lemma MoveAt(s: State, l: Label)
    requires Inv(s) && Enabled(s, l) && Careful(s, l)
    ensures QueueMove(Abstract(s), Abstract(After(s, l)))
  {
    if l.CleanItem? {
      CleanupRefines(s, l.c, l.item);
    } else if l.Run? && s.producers[l.p].Marked? {
      ItemWriteRefines(s, l.p);
    } else {
      OtherStepsInvisible(s, l);
    }
  }

  /** Every answer a producer has received. */
  ghost predicate AnswersOk(s: State) {
    && (forall p :: p in s.producers && s.producers[p].Enqueued? ==> R.Item(s.producers[p].id, s.producers[p].event) in s.ever)
    && (forall p :: p in s.producers && s.producers[p].Duplicate? ==>
          exists i :: i in s.ever && i.id == s.producers[p].existing && i.event.idempotencyKey == KeyOf(s.producers[p]))
  }

  lemma AnswersStep(s: State, l: Label)
    requires Inv(s) && Enabled(s, l) && AnswersOk(s)
    ensures AnswersOk(After(s, l))
  {
    if l.Run? && s.producers[l.p].Checking? && s.producers[l.p].found in s.files.items {
      var own := s.producers[l.p];
      assert ProducerOk(s.files, s.issued, own);
      assert R.Item(own.found, s.files.items[own.found]) in s.ever;
    }
  }

  lemma {:induction false} RunAnswers(states: seq<State>, labels: seq<Label>, n: nat)
    requires CarefulRun(states, labels) && n < |states|
    ensures AnswersOk(states[n])
  {
    if n > 0 {
      RunAnswers(states, labels, n - 1);
      RunInv(states, labels, n - 1);
      AnswersStep(states[n - 1], labels[n - 1]);
    }
  }

  lemma RunMove(states: seq<State>, labels: seq<Label>, i: nat)
    requires CarefulRun(states, labels) && i < |labels|
    ensures QueueMove(Abstract(states[i]), Abstract(states[i + 1]))
  {
    RunInv(states, labels, i);
    MoveAt(states[i], labels[i]);
  }

  lemma StartsEmpty(s: State)
    requires Init(s)
    ensures Abstract(s) == R.LocalQueue(map[], {}, {})
  {
    assert Live(s.files) == map[];
  }

  /**
   * Refinement over whole runs: the abstract queue starts empty and makes only the moves
   * the receipt machine gives its local queue; every answer a producer has is an item of
   * its key that was enqueued.
   */
  lemma RunRefines(states: seq<State>, labels: seq<Label>, n: nat)
    requires CarefulRun(states, labels) && n < |states|
    ensures Abstract(states[0]) == R.LocalQueue(map[], {}, {})
    ensures forall i :: 0 <= i < n ==> QueueMove(Abstract(states[i]), Abstract(states[i + 1]))
    ensures AnswersOk(states[n])
  {
    StartsEmpty(states[0]);
    forall i | 0 <= i < n ensures QueueMove(Abstract(states[i]), Abstract(states[i + 1])) {
      RunMove(states, labels, i);
    }
    RunAnswers(states, labels, n);
  }

  /**
   * Idempotent enqueue over every run in which only abandoned markers are removed, with
   * producers dying inside Enqueue and clean-ups dying between their two removals: at most
   * one live item exists per key, and a key whose item was never cleaned up has had only
   * one item ever.
   */
  lemma IdempotentEnqueue(states: seq<State>, labels: seq<Label>, n: nat)
    requires CarefulRun(states, labels) && n < |states|
    ensures OneLivePerKey(states[n].files)
    ensures R.OneItemPerKey(Abstract(states[n]))
    ensures R.QueueInv(Abstract(states[n]))
  {
    RunInv(states, labels, n);
    AbstractShowsItems(states[n]);
    var q := Abstract(states[n]);
    assert R.OneItemPerKey(q);
  }

  // ---------------------------------------------------------------- the marker that was judged

  /** The item is not there and no process will write it. */
  ghost predicate Gone(s: State, id: nat) {
    id in s.issued && id !in s.files.items && forall p :: p in s.producers && s.producers[p].id == id ==> s.producers[p].Enqueued?
  }

  lemma GoneStays(s: State, l: Label, id: nat)
    requires Enabled(s, l) && Gone(s, id)
    ensures Gone(After(s, l), id)
  {
  }

  /** A call whose marker stands has written its item or is about to. */
  ghost predicate CreatorsInv(s: State) {
    forall k, p :: k in s.files.markers && p in s.producers && s.producers[p].id == s.files.markers[k].id ==>
      Writing(s.producers[p]) || s.producers[p].Enqueued?
  }

  lemma CreatorsStep(s: State, l: Label)
    requires Inv(s) && CreatorsInv(s) && Enabled(s, l)
    ensures CreatorsInv(After(s, l))
  {
    if l.Run? {
      CreatorsRun(s, l.p);
    }
  }

  lemma CreatorsRun(s: State, p: nat)
    requires Inv(s) && CreatorsInv(s) && p in s.producers
    ensures CreatorsInv(After(s, Run(p)))
  {
  }

  /** What is about to be removed is gone. */
  ghost predicate JudgedInv(s: State) {
    && (forall p :: p in s.producers && s.producers[p].Removing? ==> Gone(s, s.producers[p].judged))
    && (forall c :: c in s.cleaners ==> Gone(s, s.cleaners[c].id))
  }

  /** A marker is judged only when it is abandoned. */
  ghost predicate JudgedWell(s: State, l: Label)
    requires Enabled(s, l)
  {
    l.Judge? ==> Abandoned(s, KeyOf(s.producers[l.p]))
  }

  /** A marker that is removed is the one that was judged, or the one of the cleaned item. */
  ghost predicate RemovesOwn(s: State, l: Label)
    requires Enabled(s, l)
  {
    IsRemoval(s, l) && RemovedKey(s, l) in s.files.markers ==>
      s.files.markers[RemovedKey(s, l)].id == if l.CleanMarker? then s.cleaners[l.c].id else s.producers[l.p].judged
  }

  lemma AbandonedIsGone(s: State, k: Key)
    requires Inv(s) && CreatorsInv(s) && k in s.files.markers
    ensures Abandoned(s, k) <==> Gone(s, s.files.markers[k].id)
  {
    var id := s.files.markers[k].id;
    if id in s.files.items {
      assert R.Item(id, s.files.items[id]) in s.ever;
    }
  }

  lemma ItemIsGone(s: State, c: nat, item: nat)
    requires Inv(s) && Enabled(s, CleanItem(c, item))
    ensures Gone(After(s, CleanItem(c, item)), item)
  {
    assert R.Item(item, s.files.items[item]) in s.ever;
  }

  lemma JudgedStep(s: State, l: Label)
    requires Inv(s) && CreatorsInv(s) && JudgedInv(s) && Enabled(s, l) && JudgedWell(s, l)
    ensures JudgedInv(After(s, l))
  {
    var t := After(s, l);
    forall p | p in t.producers && t.producers[p].Removing? ensures Gone(t, t.producers[p].judged) {
      if l == Judge(p) {
        AbandonedIsGone(s, KeyOf(s.producers[p]));
      }
      GoneStays(s, l, t.producers[p].judged);
    }
    forall c | c in t.cleaners ensures Gone(t, t.cleaners[c].id) {
      if c in s.cleaners {
        GoneStays(s, l, t.cleaners[c].id);
      } else {
        ItemIsGone(s, c, l.item);
      }
    }
  }

  lemma OwnIsCareful(s: State, l: Label)
    requires Inv(s) && CreatorsInv(s) && JudgedInv(s) && Enabled(s, l) && RemovesOwn(s, l)
    ensures Careful(s, l)
  {
    if IsRemoval(s, l) && RemovedKey(s, l) in s.files.markers {
      AbandonedIsGone(s, RemovedKey(s, l));
    }
  }

  ghost predicate OwnRun(states: seq<State>, labels: seq<Label>) {
    IsRun(states, labels) && forall i :: 0 <= i < |labels| ==> JudgedWell(states[i], labels[i]) && RemovesOwn(states[i], labels[i])
  }

  lemma {:induction false} OwnRunInv(states: seq<State>, labels: seq<Label>, n: nat)
    requires OwnRun(states, labels) && n < |states|
    ensures Inv(states[n]) && CreatorsInv(states[n]) && JudgedInv(states[n])
    ensures forall i :: 0 <= i < n ==> Careful(states[i], labels[i])
  {
    if n > 0 {
      OwnRunInv(states, labels, n - 1);
      OwnIsCareful(states[n - 1], labels[n - 1]);
      InvStep(states[n - 1], labels[n - 1]);
      CreatorsStep(states[n - 1], labels[n - 1]);
      JudgedStep(states[n - 1], labels[n - 1]);
    }
  }

  /**
   * Removals are of abandoned markers in every run in which only abandoned markers are
   * judged, and what is removed is what was judged: an abandoned marker stays abandoned.
   */
  lemma JudgedIsEnough(states: seq<State>, labels: seq<Label>)
    requires OwnRun(states, labels)
    ensures CarefulRun(states, labels)
  {
    OwnRunInv(states, labels, |labels|);
  }

  // ---------------------------------------------------------------- removing a marker that is not abandoned

  datatype Pace = AnyPace | JudgingWell | WithCare

  ghost predicate StepOk(pace: Pace, s: State, l: Label) {
    && Enabled(s, l)
    && (pace.JudgingWell? ==> JudgedWell(s, l))
    && (pace.WithCare? ==> Careful(s, l))
  }

  /** The labels lead from s to t. */
  ghost predicate Path(pace: Pace, s: State, labels: seq<Label>, t: State)
    decreases |labels|
  {
    if labels == [] then s == t
    else StepOk(pace, s, labels[0]) && Path(pace, After(s, labels[0]), labels[1..], t)
  }

  lemma {:induction false} PathAppend(pace: Pace, s: State, a: seq<Label>, t: State, b: seq<Label>, u: State)
    requires Path(pace, s, a, t) && Path(pace, t, b, u)
    ensures Path(pace, s, a + b, u)
    decreases |a|
  {
    if a == [] {
      assert a + b == b;
    } else {
      PathAppend(pace, After(s, a[0]), a[1..], t, b, u);
      assert (a + b)[1..] == a[1..] + b;
    }
  }

  lemma {:induction false} CarefulPathInv(s: State, labels: seq<Label>, t: State)
    requires Inv(s) && Path(WithCare, s, labels, t)
    ensures Inv(t)
    decreases |labels|
  {
    if labels != [] {
      InvStep(s, labels[0]);
      CarefulPathInv(After(s, labels[0]), labels[1..], t);
    }
  }

  lemma OneStep(pace: Pace, s: State, l: Label)
    requires StepOk(pace, s, l)
    ensures Path(pace, s, [l], After(s, l))
  {
    assert [l][1..] == [];
  }

  lemma TwoSteps(pace: Pace, s: State, a: Label, b: Label)
    requires StepOk(pace, s, a) && StepOk(pace, After(s, a), b)
    ensures Path(pace, s, [a, b], After(After(s, a), b))
  {
    OneStep(pace, s, a);
    OneStep(pace, After(s, a), b);
    PathAppend(pace, s, [a], After(s, a), [b], After(After(s, a), b));
    assert [a] + [b] == [a, b];
  }

  /** The state when a producer has reserved a free key and made its writes undisturbed. */
  ghost function Finished(s: State, p: nat, e: Event, id: nat): State {
    s.(files := Files(s.files.markers[e.idempotencyKey := Marker(id, true)], s.files.items[id := e]),
       producers := s.producers[p := Enqueued(e, id)],
       ever := s.ever + {R.Item(id, e)})
  }

  ghost predicate MayReserve(s: State, p: nat, e: Event, id: nat) {
    p in s.producers && s.producers[p] == Reserving(e, id) && e.idempotencyKey !in s.files.markers
  }

  lemma FinishPath(pace: Pace, s: State, p: nat, e: Event, id: nat)
    requires MayReserve(s, p, e, id)
    ensures Path(pace, s, [Run(p), Run(p), Run(p)], Finished(s, p, e, id))
  {
    var k := e.idempotencyKey;
    var a := s.(files := s.files.(markers := s.files.markers[k := Marker(id, false)]), producers := s.producers[p := Opened(e, id)]);
    var b := s.(files := s.files.(markers := s.files.markers[k := Marker(id, true)]), producers := s.producers[p := Marked(e, id)]);
    assert After(s, Run(p)) == a;
    OpenedNext(s, a, b, p, e, id);
    assert After(b, Run(p)) == Finished(s, p, e, id);
    TwoSteps(pace, s, Run(p), Run(p));
    OneStep(pace, b, Run(p));
    PathAppend(pace, s, [Run(p), Run(p)], b, [Run(p)], Finished(s, p, e, id));
    assert [Run(p), Run(p)] + [Run(p)] == [Run(p), Run(p), Run(p)];
  }

  lemma OpenedNext(s: State, a: State, b: State, p: nat, e: Event, id: nat)
    requires a == s.(files := s.files.(markers := s.files.markers[e.idempotencyKey := Marker(id, false)]), producers := s.producers[p := Opened(e, id)])
    requires b == s.(files := s.files.(markers := s.files.markers[e.idempotencyKey := Marker(id, true)]), producers := s.producers[p := Marked(e, id)])
    ensures After(a, Run(p)) == b
  {
    var k := e.idempotencyKey;
    assert s.files.markers[k := Marker(id, false)][k := Marker(id, true)] == s.files.markers[k := Marker(id, true)];
    assert s.producers[p := Opened(e, id)][p := Marked(e, id)] == s.producers[p := Marked(e, id)];
  }

  /** The writer of a removed marker goes on and writes its item all the same. */
  lemma WriterFinishes(pace: Pace, s: State, w: nat) returns (labels: seq<Label>, t: State)
    requires w in s.producers && Writing(s.producers[w])
    ensures Path(pace, s, labels, t) && t.files.items == s.files.items[s.producers[w].id := s.producers[w].event]
  {
    if s.producers[w].Opened? {
      labels, t := [Run(w), Run(w)], After(After(s, Run(w)), Run(w));
      TwoSteps(pace, s, Run(w), Run(w));
    } else {
      labels, t := [Run(w)], After(s, Run(w));
      OneStep(pace, s, Run(w));
    }
  }

  /** A free key under which an item lives, or is about to, gets a second item from any producer that may reserve it. */
  lemma SecondItem(s: State, q: nat, e: Event, id: nat, other: nat) returns (labels: seq<Label>, t: State)
    requires MayReserve(s, q, e, id) && other != id
    requires
      || (other in s.files.items && s.files.items[other].idempotencyKey == e.idempotencyKey)
      || (exists w :: w in s.producers && w != q && s.producers[w].id == other && Writing(s.producers[w]) && KeyOf(s.producers[w]) == e.idempotencyKey)
    ensures Path(WithCare, s, labels, t) && !OneLivePerKey(t.files)
  {
    FinishPath(WithCare, s, q, e, id);
    labels, t := [Run(q), Run(q), Run(q)], Finished(s, q, e, id);
    if other in s.files.items && s.files.items[other].idempotencyKey == e.idempotencyKey {
      assert other in t.files.items && id in t.files.items;
    } else {
      var w :| w in s.producers && w != q && s.producers[w].id == other && Writing(s.producers[w]) && KeyOf(s.producers[w]) == e.idempotencyKey;
      var more, u := WriterFinishes(WithCare, t, w);
      PathAppend(WithCare, s, labels, t, more, u);
      labels, t := labels + more, u;
      assert other in t.files.items && id in t.files.items;
    }
  }

  lemma {:induction false} Bound(numbers: set<nat>) returns (n: nat)
    ensures forall m :: m in numbers ==> m < n
    decreases numbers
  {
    if numbers == {} {
      n := 0;
    } else {
      var m :| m in numbers;
      var rest := numbers - {m};
      var below := Bound(rest);
      n := if below <= m then m + 1 else below;
      assert forall x :: x in numbers ==> x == m || x in rest;
    }
  }

  /** After the marker is gone, some producer may reserve the key: the one that removed it, or a new call. */
  lemma Reserver(s: State, l: Label, k: Key) returns (labels: seq<Label>, t: State, q: nat, e: Event, id: nat)
    requires Inv(s) && CreatorsInv(s) && Enabled(s, l) && IsRemoval(s, l) && k == RemovedKey(s, l) && k in s.files.markers
    ensures Path(WithCare, After(s, l), labels, t) && MayReserve(t, q, e, id) && e.idempotencyKey == k
    ensures t.files.items == s.files.items && id != s.files.markers[k].id
    ensures forall w :: w in s.producers && Writing(s.producers[w]) ==> w != q && w in t.producers && t.producers[w] == s.producers[w]
  {
    var u := After(s, l);
    if l.Run? {
      labels, t, q, e, id := [], u, l.p, s.producers[l.p].event, s.producers[l.p].id;
    } else {
      q := Bound(s.producers.Keys);
      id := Bound(s.issued.Keys);
      id := id + 1;
      e := s.issued[s.files.markers[k].id];
      labels, t := [Begin(q, e, id)], After(u, Begin(q, e, id));
      OneStep(WithCare, u, Begin(q, e, id));
    }
  }

  lemma MarkerOfKey(s: State, k: Key)
    requires Inv(s) && k in s.files.markers
    ensures var id := s.files.markers[k].id;
      && (id in s.files.items ==> s.files.items[id].idempotencyKey == k)
      && forall w :: w in s.producers && s.producers[w].id == id ==> KeyOf(s.producers[w]) == k
  {
    var id := s.files.markers[k].id;
    if id in s.files.items {
      assert R.Item(id, s.files.items[id]) in s.ever;
    }
    forall w | w in s.producers && s.producers[w].id == id ensures KeyOf(s.producers[w]) == k {
      assert ProducerOk(s.files, s.issued, s.producers[w]);
    }
  }

  lemma BreaksFrom(s: State, l: Label, k: Key) returns (labels: seq<Label>, t: State)
    requires Inv(s) && CreatorsInv(s) && Enabled(s, l) && IsRemoval(s, l) && k == RemovedKey(s, l) && !Abandoned(s, k)
    ensures Path(WithCare, After(s, l), labels, t) && !OneLivePerKey(t.files)
  {
    MarkerOfKey(s, k);
    var before, u, q, e, id := Reserver(s, l, k);
    var other := s.files.markers[k].id;
    if WriterAlive(s, k) {
      var w :| w in s.producers && s.producers[w].id == other && Writing(s.producers[w]);
      assert w in u.producers && u.producers[w] == s.producers[w];
    }
    labels, t := SecondItem(u, q, e, id, other);
    PathAppend(WithCare, After(s, l), before, u, labels, t);
    labels := before + labels;
  }

  ghost predicate CarefulPath(s: State, labels: seq<Label>, t: State) {
    Path(WithCare, s, labels, t)
  }

  /** Some careful continuation gives a key two live items. */
  ghost predicate MayBreak(s: State) {
    exists labels, t :: CarefulPath(s, labels, t) && !OneLivePerKey(t.files)
  }

  lemma TwoItemsAt(s: State, l: Label)
    requires Inv(s) && CreatorsInv(s) && Enabled(s, l) && IsRemoval(s, l)
    ensures MayBreak(After(s, l)) <==> !Abandoned(s, RemovedKey(s, l))
  {
    if Abandoned(s, RemovedKey(s, l)) {
      InvStep(s, l);
      forall labels, t | CarefulPath(After(s, l), labels, t) ensures OneLivePerKey(t.files) {
        CarefulPathInv(After(s, l), labels, t);
      }
    } else {
      var labels, t := BreaksFrom(s, l, RemovedKey(s, l));
      assert CarefulPath(After(s, l), labels, t);
    }
  }

  lemma {:induction false} RunCreators(states: seq<State>, labels: seq<Label>, n: nat)
    requires CarefulRun(states, labels) && n < |states|
    ensures CreatorsInv(states[n])
  {
    if n > 0 {
      RunCreators(states, labels, n - 1);
      RunInv(states, labels, n - 1);
      CreatorsStep(states[n - 1], labels[n - 1]);
    }
  }

  /**
   * The exact condition. At every state of a careful run: after a step that removes a
   * marker, by a waiting call or by a clean-up, some careful continuation gives the key two
   * live items if and only if the marker was not abandoned: an item backed it, or its
   * writer was alive.
   */
  lemma TwoItemsIffNotAbandoned(states: seq<State>, labels: seq<Label>, n: nat, l: Label)
    requires CarefulRun(states, labels) && n < |states| && Enabled(states[n], l) && IsRemoval(states[n], l)
    ensures MayBreak(After(states[n], l)) <==> !Abandoned(states[n], RemovedKey(states[n], l))
  {
    RunInv(states, labels, n);
    RunCreators(states, labels, n);
    TwoItemsAt(states[n], l);
  }

  lemma {:induction false} PathStates(pace: Pace, s: State, labels: seq<Label>, t: State) returns (states: seq<State>)
    requires Path(pace, s, labels, t)
    ensures |states| == |labels| + 1 && states[0] == s && states[|labels|] == t
    ensures forall i :: 0 <= i < |labels| ==> StepOk(pace, states[i], labels[i]) && states[i + 1] == After(states[i], labels[i])
    decreases |labels|
  {
    if labels == [] {
      states := [s];
    } else {
      var rest := PathStates(pace, After(s, labels[0]), labels[1..], t);
      states := [s] + rest;
      forall i | 0 <= i < |labels| ensures StepOk(pace, states[i], labels[i]) && states[i + 1] == After(states[i], labels[i]) {
        if i > 0 {
          assert states[i] == rest[i - 1] && labels[i] == labels[1..][i - 1] && states[i + 1] == rest[i];
        }
      }
    }
  }

  // ---------------------------------------------------------------- two reclaimers

  /** A writer of the event has died with its marker still empty. */
  ghost function LeftEmpty(e: Event): State {
    State(Files(map[e.idempotencyKey := Marker(1, false)], map[]), map[], map[], map[1 := e], {}, {})
  }

  /** Two calls have both judged that marker. */
  ghost function BothJudged(e: Event): State {
    LeftEmpty(e).(producers := map[1 := Removing(e, 2, 1), 2 := Removing(e, 3, 1)], issued := map[1 := e, 2 := e, 3 := e])
  }

  lemma WriterDies(e: Event, s: State) returns (labels: seq<Label>)
    requires Init(s)
    ensures Path(JudgingWell, s, labels, LeftEmpty(e))
  {
    var a := After(s, Begin(0, e, 1));
    var b := After(a, Run(0));
    TwoSteps(JudgingWell, s, Begin(0, e, 1), Run(0));
    OneStep(JudgingWell, b, Die(0));
    assert After(b, Die(0)) == LeftEmpty(e);
    PathAppend(JudgingWell, s, [Begin(0, e, 1), Run(0)], b, [Die(0)], LeftEmpty(e));
    labels := [Begin(0, e, 1), Run(0)] + [Die(0)];
  }

  /** A call that finds a marker waits. */
  lemma CallWaits(s: State, p: nat, e: Event, id: nat, t: State) returns (labels: seq<Label>)
    requires p !in s.producers && id != 0 && id !in s.issued && e.idempotencyKey in s.files.markers
    requires t == s.(producers := s.producers[p := Waiting(e, id)], issued := s.issued[id := e])
    ensures Path(JudgingWell, s, labels, t)
  {
    TwoSteps(JudgingWell, s, Begin(p, e, id), Run(p));
    labels := [Begin(p, e, id), Run(p)];
    assert s.producers[p := Reserving(e, id)][p := Waiting(e, id)] == s.producers[p := Waiting(e, id)];
  }

  lemma BothWait(e: Event, s: State) returns (labels: seq<Label>, t: State)
    requires s == LeftEmpty(e)
    ensures Path(JudgingWell, s, labels, t)
    ensures t == s.(producers := map[1 := Waiting(e, 2), 2 := Waiting(e, 3)], issued := map[1 := e, 2 := e, 3 := e])
  {
    var u := s.(producers := map[1 := Waiting(e, 2)], issued := map[1 := e, 2 := e]);
    t := s.(producers := map[1 := Waiting(e, 2), 2 := Waiting(e, 3)], issued := map[1 := e, 2 := e, 3 := e]);
    var a := CallWaits(s, 1, e, 2, u);
    var b := CallWaits(u, 2, e, 3, t);
    PathAppend(JudgingWell, s, a, u, b, t);
    labels := a + b;
  }

  lemma BothJudge(e: Event, s: State) returns (labels: seq<Label>)
    requires s == LeftEmpty(e)
    ensures Path(JudgingWell, s, labels, BothJudged(e))
  {
    var a, t := BothWait(e, s);
    var u := t.(producers := map[1 := Removing(e, 2, 1), 2 := Waiting(e, 3)]);
    assert After(t, Judge(1)) == u;
    assert After(u, Judge(2)) == BothJudged(e);
    TwoSteps(JudgingWell, t, Judge(1), Judge(2));
    PathAppend(JudgingWell, s, a, t, [Judge(1), Judge(2)], BothJudged(e));
    labels := a + [Judge(1), Judge(2)];
  }

  /** A call removes what stands at the marker's path and then enqueues. */
  lemma RemoveAndFinish(s: State, p: nat, e: Event, id: nat, judged: nat) returns (labels: seq<Label>, t: State)
    requires p in s.producers && s.producers[p] == Removing(e, id, judged)
    ensures Path(JudgingWell, s, labels, t)
    ensures t.files.items == s.files.items[id := e] && t.producers == s.producers[p := Enqueued(e, id)]
  {
    var u := After(s, Run(p));
    OneStep(JudgingWell, s, Run(p));
    FinishPath(JudgingWell, u, p, e, id);
    t := Finished(u, p, e, id);
    PathAppend(JudgingWell, s, [Run(p)], u, [Run(p), Run(p), Run(p)], t);
    labels := [Run(p)] + [Run(p), Run(p), Run(p)];
  }

  /**
   * Judging well is not enough. For every event there is a run from the empty queue in
   * which only abandoned markers are judged, and which ends with two live items of the
   * event's key: a writer dies and leaves its marker empty, two calls judge it, the first
   * removes it and enqueues, and the second then removes the marker of the first.
   */
  lemma TwoReclaimersRace(e: Event) returns (states: seq<State>, labels: seq<Label>)
    ensures IsRun(states, labels) && forall i :: 0 <= i < |labels| ==> JudgedWell(states[i], labels[i])
    ensures !OneLivePerKey(states[|labels|].files)
  {
    var s := State(Files(map[], map[]), map[], map[], map[], {}, {});
    var a := WriterDies(e, s);
    var b := BothJudge(e, LeftEmpty(e));
    PathAppend(JudgingWell, s, a, LeftEmpty(e), b, BothJudged(e));
    var c, t := RemoveAndFinish(BothJudged(e), 1, e, 2, 1);
    PathAppend(JudgingWell, s, a + b, BothJudged(e), c, t);
    var d, u := RemoveAndFinish(t, 2, e, 3, 1);
    PathAppend(JudgingWell, s, a + b + c, t, d, u);
    labels := a + b + c + d;
    states := PathStates(JudgingWell, s, labels, u);
    assert 2 in u.files.items && 3 in u.files.items;
  }

  // ---------------------------------------------------------------- the call

  datatype EnqueueResult = Rejected | Died | Fresh(id: nat) | Existing(id: nat) | Pending

  /** What one call does on its own; `stale` is the verdict of the marker's file time. */
  function EnqueueAlone(f: Files, e: Event, id: nat, stale: bool, life: nat): (Files, EnqueueResult) {
    var k := e.idempotencyKey;
    if !e.wellFormed then (f, Rejected)
    else if MarkerBacked(f, k) then (f, Existing(f.markers[k].id))
    else if k in f.markers && !stale then (f, Pending)
    else
      var cleared := if k in f.markers && life > 0 then f.(markers := f.markers - {k}) else f;
      var left := if k in f.markers && life > 0 then life - 1 else life;
      if left == 0 then (cleared, Died)
      else if left == 1 then (cleared.(markers := cleared.markers[k := Marker(id, false)]), Died)
      else if left == 2 then (cleared.(markers := cleared.markers[k := Marker(id, true)]), Died)
      else (Files(cleared.markers[k := Marker(id, true)], cleared.items[id := e]), Fresh(id))
  }

  class KeyedQueue {
    var markers: map<Key, Marker>
    var items: map<nat, Event>

    /** Reserves the key, writes the id into the marker, then the item; cut off after `life` file writes. */
    method Enqueue(e: Event, id: nat, stale: bool, life: nat) returns (r: EnqueueResult)
      modifies this
      ensures (Files(markers, items), r) == EnqueueAlone(old(Files(markers, items)), e, id, stale, life)
    {
      if !e.wellFormed {
        return Rejected;
      }
      var k := e.idempotencyKey;
      var left := life;
      while k in markers
        invariant left <= life
        invariant (markers == old(markers) && left == life)
          || (k in old(markers) && !MarkerBacked(old(Files(markers, items)), k) && stale
              && life > 0 && left == life - 1 && markers == old(markers) - {k})
        invariant items == old(items)
        decreases k in markers
      {
        var marker := markers[k];
        if marker.written && marker.id in items {
          return Existing(marker.id);
        }
        if !stale {
          return Pending;
        }
        if left == 0 {
          return Died;
        }
        left := left - 1;
        markers := markers - {k};
      }
      if left == 0 {
        return Died;
      }
      left := left - 1;
      ghost var unmarked := markers;
      markers := markers[k := Marker(id, false)];
      if left == 0 {
        return Died;
      }
      left := left - 1;
      assert markers[k := Marker(id, true)] == unmarked[k := Marker(id, true)];
      markers := markers[k := Marker(id, true)];
      if left == 0 {
        return Died;
      }
      items := items[id := e];
      return Fresh(id);
    }
  }

  /** A call that survives answers with the live item of the key, new or old. */
  lemma SurvivingCallIsLive(f: Files, e: Event, id: nat, stale: bool, life: nat)
    requires MarkersInv(f)
    ensures var (g, r) := EnqueueAlone(f, e, id, stale, life);
      && (r.Fresh? || r.Existing? ==> r.id in g.items && e.idempotencyKey in g.markers && g.markers[e.idempotencyKey] == Marker(r.id, true))
      && (r.Fresh? ==> g.items == f.items[id := e] && forall i :: i in f.items ==> f.items[i].idempotencyKey != e.idempotencyKey)
      && (!r.Fresh? ==> g.items == f.items)
      && (id !in f.items ==> MarkersInv(g))
  {
  }

  // ---------------------------------------------------------------- the call as steps of one producer

  /** The labels are steps of this producer, and it judges a marker only if the verdict is stale. */
  ghost predicate StepsOf(labels: seq<Label>, p: nat, stale: bool) {
    forall i :: 0 <= i < |labels| ==>
      match labels[i]
      case Begin(q, _, _) => q == p
      case Run(q) => q == p
      case Judge(q) => q == p && stale
      case TimeOut(q) => q == p && !stale
      case Die(q) => q == p
      case _ => false
  }

  /** What the call's answer says of its process. */
  ghost predicate AnswerIs(s: State, p: nat, e: Event, id: nat, r: EnqueueResult) {
    match r
    case Rejected => false
    case Died => p !in s.producers
    case Fresh(x) => x == id && p in s.producers && s.producers[p] == Enqueued(e, id)
    case Existing(x) => p in s.producers && s.producers[p] == Duplicate(e, id, x)
    case Pending => p in s.producers && s.producers[p] == NotYet(e, id)
  }

  /** A producer at a free key, cut off after `left` writes. */
  lemma ReservingAlone(s: State, p: nat, e: Event, id: nat, left: nat) returns (labels: seq<Label>, t: State, r: EnqueueResult)
    requires MayReserve(s, p, e, id)
    ensures Path(AnyPace, s, labels, t) && StepsOf(labels, p, true) && StepsOf(labels, p, false) && AnswerIs(t, p, e, id, r)
    ensures r == if left < 3 then Died else Fresh(id)
    ensures var k := e.idempotencyKey;
      t.files ==
        if left == 0 then s.files
        else if left < 3 then s.files.(markers := s.files.markers[k := Marker(id, left == 2)])
        else Files(s.files.markers[k := Marker(id, true)], s.files.items[id := e])
  {
    var k := e.idempotencyKey;
    var a := s.(files := s.files.(markers := s.files.markers[k := Marker(id, false)]), producers := s.producers[p := Opened(e, id)]);
    var b := s.(files := s.files.(markers := s.files.markers[k := Marker(id, true)]), producers := s.producers[p := Marked(e, id)]);
    assert After(s, Run(p)) == a;
    OpenedNext(s, a, b, p, e, id);
    r := if left < 3 then Died else Fresh(id);
    if left == 0 {
      labels, t := [Die(p)], After(s, Die(p));
      OneStep(AnyPace, s, Die(p));
    } else if left == 1 {
      labels, t := [Run(p), Die(p)], After(a, Die(p));
      TwoSteps(AnyPace, s, Run(p), Die(p));
    } else if left == 2 {
      TwoSteps(AnyPace, s, Run(p), Run(p));
      OneStep(AnyPace, b, Die(p));
      labels, t := [Run(p), Run(p)] + [Die(p)], After(b, Die(p));
      PathAppend(AnyPace, s, [Run(p), Run(p)], b, [Die(p)], t);
    } else {
      labels, t := [Run(p), Run(p), Run(p)], Finished(s, p, e, id);
      FinishPath(AnyPace, s, p, e, id);
    }
  }

  /** A waiting producer whose marker is backed answers with its item. */
  lemma WaitingFinds(s: State, p: nat, e: Event, id: nat) returns (t: State)
    requires p in s.producers && s.producers[p] == Waiting(e, id) && MarkerBacked(s.files, e.idempotencyKey)
    ensures Path(AnyPace, s, [Run(p), Run(p)], t) && t.files == s.files
    ensures AnswerIs(t, p, e, id, Existing(s.files.markers[e.idempotencyKey].id))
  {
    t := After(After(s, Run(p)), Run(p));
    TwoSteps(AnyPace, s, Run(p), Run(p));
  }

  /** A waiting producer whose marker is not backed: it gives up on a young one, and removes and replaces a stale one. */
  lemma WaitingReclaims(s: State, p: nat, e: Event, id: nat, stale: bool, life: nat) returns (labels: seq<Label>, t: State)
    requires p in s.producers && s.producers[p] == Waiting(e, id) && e.idempotencyKey in s.files.markers
    requires !MarkerBacked(s.files, e.idempotencyKey) && e.wellFormed
    ensures Path(AnyPace, s, labels, t) && StepsOf(labels, p, stale)
    ensures t.files == EnqueueAlone(s.files, e, id, stale, life).0
    ensures AnswerIs(t, p, e, id, EnqueueAlone(s.files, e, id, stale, life).1)
  {
    var k := e.idempotencyKey;
    if !stale {
      labels, t := [TimeOut(p)], After(s, TimeOut(p));
      OneStep(AnyPace, s, TimeOut(p));
    } else if life == 0 {
      labels, t := [Judge(p), Die(p)], After(After(s, Judge(p)), Die(p));
      TwoSteps(AnyPace, s, Judge(p), Die(p));
    } else {
      TwoSteps(AnyPace, s, Judge(p), Run(p));
      var u := After(After(s, Judge(p)), Run(p));
      var r;
      labels, t, r := ReservingAlone(u, p, e, id, life - 1);
      PathAppend(AnyPace, s, [Judge(p), Run(p)], u, labels, t);
      labels := [Judge(p), Run(p)] + labels;
    }
  }

  /**
   * The call on its own is a run of one producer of the machine: from every state, its
   * steps lead to the files of `EnqueueAlone` and to its answer.
   */
  lemma AloneIsOneProducer(s: State, p: nat, e: Event, id: nat, stale: bool, life: nat) returns (labels: seq<Label>, t: State)
    requires Enabled(s, Begin(p, e, id)) && e.wellFormed
    ensures Path(AnyPace, s, labels, t) && StepsOf(labels, p, stale)
    ensures t.files == EnqueueAlone(s.files, e, id, stale, life).0
    ensures AnswerIs(t, p, e, id, EnqueueAlone(s.files, e, id, stale, life).1)
  {
    var u := After(s, Begin(p, e, id));
    OneStep(AnyPace, s, Begin(p, e, id));
    if e.idempotencyKey !in s.files.markers {
      var r;
      labels, t, r := ReservingAlone(u, p, e, id, life);
      PathAppend(AnyPace, s, [Begin(p, e, id)], u, labels, t);
      labels := [Begin(p, e, id)] + labels;
    } else {
      var w := After(u, Run(p));
      TwoSteps(AnyPace, s, Begin(p, e, id), Run(p));
      if MarkerBacked(s.files, e.idempotencyKey) {
        labels := [Run(p), Run(p)];
        t := WaitingFinds(w, p, e, id);
      } else {
        labels, t := WaitingReclaims(w, p, e, id, stale, life);
      }
      PathAppend(AnyPace, s, [Begin(p, e, id), Run(p)], w, labels, t);
      labels := [Begin(p, e, id), Run(p)] + labels;
    }
  }
}
