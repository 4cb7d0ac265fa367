/** The per-document syntax slot (crates/syntax/src/{edits,types,retention,queries}.rs
and the install phase of crates/syntax/src/ensure).

A parsed tree is represented by the text it was parsed from.  `Slot` is the
value of the slot's fields and the functions on it say what each operation
does; the class `SyntaxSlot` holds the same fields and updates them step by
step the way the source does.  A `World` adds the document itself, with the
text of every version it ever had, the policy, and the background parses in
flight and finished; `Aligned` is what every run keeps.
 */
module SyntaxSlots {
  import opened Prelude
  import opened ChangeSets

  type Text = string

  const FULL_TREE_MEMORY_CAP := 8
  const VIEWPORT_CACHE_CAP := 4

  /** `edits` counts the times the node positions were edited in place by an
      update that then failed to reparse; `spoiled` marks a tree to which that
      happened, or that was built from such a tree. */
  datatype Tree = Tree(text: Text, spoiled: bool, edits: nat)

  datatype InstalledTree = InstalledTree(tree: Tree, version: nat, treeId: nat)

  datatype Snapshot = Snapshot(content: Text, tree: Tree)

  /** Edits since the resident tree's version: `composed` leads from `oldText`
      to the current text. */
  datatype Pending = Pending(base: nat, oldText: Text, composed: ChangeSet)

  datatype ViewportEntry = ViewportEntry(stageA: Option<InstalledTree>, stageB: Option<InstalledTree>)

  /** Most recently used key first. */
  datatype ViewportCache = ViewportCache(order: seq<nat>, entries: map<nat, ViewportEntry>)

  datatype Slot = Slot(
    full: Option<InstalledTree>,
    memory: seq<Snapshot>,
    cache: ViewportCache,
    dirty: bool,
    changeId: nat,
    nextTreeId: nat,
    pending: Option<Pending>,
    bootstrapAttempted: bool)

  const EMPTY_CACHE := ViewportCache([], map[])
  const EMPTY_SLOT := Slot(None, [], EMPTY_CACHE, false, 0, 0, None, false)

  datatype EditSource = Typing | History

  /** What the parser did with a synchronous update: `Failed` left the tree
      alone, `FailedAfterEdit` had already edited its positions. */
  datatype SyncOutcome = Updated | Failed | FailedAfterEdit

  // ---------------------------------------------------------------------
  // Viewport cache
  // ---------------------------------------------------------------------

  function IndexOf(order: seq<nat>, key: nat): (i: nat)
    requires key in order
    ensures i < |order| && order[i] == key
    ensures forall j :: 0 <= j < i ==> order[j] != key
  {
    if order[0] == key then 0 else 1 + IndexOf(order[1..], key)
  }

  function MoveToFront(order: seq<nat>, key: nat): seq<nat>
    requires key in order
  {
    var i := IndexOf(order, key);
    [key] + order[..i] + order[i + 1..]
  }

  /** Gets or creates the entry for `key`, evicting the least recently used. */
  function TouchOrInsert(c: ViewportCache, key: nat): ViewportCache {
    if key in c.entries then
      if key in c.order then c.(order := MoveToFront(c.order, key)) else c
    else
      var full := |c.order| >= VIEWPORT_CACHE_CAP;
      var kept := if full then c.order[..|c.order| - 1] else c.order;
      var left := if full then c.entries - {c.order[|c.order| - 1]} else c.entries;
      ViewportCache([key] + kept, left[key := ViewportEntry(None, None)])
  }

  predicate Distinct(order: seq<nat>) {
    forall i, j :: 0 <= i < j < |order| ==> order[i] != order[j]
  }

  predicate CacheOk(c: ViewportCache) {
    && Distinct(c.order) && |c.order| <= VIEWPORT_CACHE_CAP
    && (forall k :: k in c.order ==> k in c.entries)
    && (forall k :: k in c.entries ==> k in c.order)
  }

  lemma MoveToFrontOk(order: seq<nat>, key: nat)
    requires Distinct(order) && key in order
    ensures var d := MoveToFront(order, key);
      && Distinct(d) && |d| == |order| && d[0] == key
      && (forall k :: k in d <==> k in order)
      && (forall x, y :: 1 <= x < y < |d| ==> Before(order, d[x], d[y]))
  {
    var i, d := IndexOf(order, key), MoveToFront(order, key);
    forall k | k in order ensures k in d {
      var n :| 0 <= n < |order| && order[n] == k;
      assert d[if n < i then n + 1 else if n == i then 0 else n] == k;
    }
    forall x, y | 1 <= x < y < |d| ensures Before(order, d[x], d[y]) {
      var x', y' := if x <= i then x - 1 else x, if y <= i then y - 1 else y;
      assert order[x'] == d[x] && order[y'] == d[y];
    }
  }

  lemma InsertFrontOk(c: ViewportCache, key: nat)
    requires CacheOk(c) && key !in c.entries
    ensures CacheOk(TouchOrInsert(c, key))
  {
    var d := TouchOrInsert(c, key);
    forall k | k in d.entries ensures k in d.order {
      if k != key {
        var n :| 0 <= n < |c.order| && c.order[n] == k;
        assert d.order[n + 1] == k;
      }
    }
    forall k | k in d.order ensures k in d.entries {
      var n :| 0 <= n < |d.order| && d.order[n] == k;
      if n > 0 { assert c.order[n - 1] == k; }
    }
  }

  /** A touched key is first, the others keep their order, and a key is only
      lost when the cache was full, and then it is the oldest one. */
  lemma TouchOrInsertOk(c: ViewportCache, key: nat)
    requires CacheOk(c)
    ensures var d := TouchOrInsert(c, key);
      && CacheOk(d) && d.order[0] == key && key in d.entries
      && (forall k :: k in d.entries && k != key ==> k in c.entries && d.entries[k] == c.entries[k])
      && (forall k :: k in c.entries && k !in d.entries ==>
            |c.order| == VIEWPORT_CACHE_CAP && k == c.order[|c.order| - 1] && key !in c.entries)
      && (forall i, j :: 1 <= i < j < |d.order| ==> Before(c.order, d.order[i], d.order[j]))
  {
    var d := TouchOrInsert(c, key);
    if key in c.entries {
      MoveToFrontOk(c.order, key);
    } else {
      InsertFrontOk(c, key);
      forall x, y | 1 <= x < y < |d.order| ensures Before(c.order, d.order[x], d.order[y]) {
        assert c.order[x - 1] == d.order[x] && c.order[y - 1] == d.order[y];
      }
    }
  }

  ghost predicate Before(order: seq<nat>, a: nat, b: nat) {
    exists i, j :: 0 <= i < j < |order| && order[i] == a && order[j] == b
  }

  function MaxVersion(a: Option<nat>, b: Option<nat>): Option<nat> {
    match (a, b)
    case (Some(x), Some(y)) => Some(if x < y then y else x)
    case (None, _) => b
    case (_, None) => a
  }

  function VersionOf(t: Option<InstalledTree>): Option<nat> {
    if t.Some? then Some(t.value.version) else None
  }

  /** Best version over the cached viewport trees. */
  function BestVersion(order: seq<nat>, entries: map<nat, ViewportEntry>): Option<nat> {
    if order == [] then None
    else
      var rest := BestVersion(order[1..], entries);
      if order[0] in entries then
        var e := entries[order[0]];
        MaxVersion(MaxVersion(VersionOf(e.stageA), VersionOf(e.stageB)), rest)
      else rest
  }

  predicate HasViewport(c: ViewportCache) {
    exists k :: k in c.entries && (c.entries[k].stageA.Some? || c.entries[k].stageB.Some?)
  }

  // ---------------------------------------------------------------------
  // Slot operations as values
  // ---------------------------------------------------------------------

  predicate HasAnyTree(s: Slot) { s.full.Some? || HasViewport(s.cache) }

  /** The next value of a wrapping 64-bit counter. */
  function Tick(c: nat): nat { (c + 1) % U64 }

  function MarkUpdated(s: Slot): Slot { s.(changeId := Tick(s.changeId)) }

  function BumpTreeId(s: Slot): Slot { s.(nextTreeId := Tick(s.nextTreeId)) }

  function DropFull(s: Slot): Slot { s.(full := None, memory := []) }

  function DropTree(s: Slot): Slot {
    DropFull(s).(cache := EMPTY_CACHE, pending := None, bootstrapAttempted := false)
  }

  /** First remembered snapshot of `content`. */
  function FindSnapshot(memory: seq<Snapshot>, content: Text): (i: Option<nat>)
    ensures i.Some? ==> i.value < |memory| && memory[i.value].content == content
    ensures i.None? ==> forall j :: 0 <= j < |memory| ==> memory[j].content != content
  {
    if memory == [] then None
    else if memory[0].content == content then Some(0)
    else
      var r := FindSnapshot(memory[1..], content);
      if r.Some? then Some(r.value + 1) else None
  }

  function Remembered(memory: seq<Snapshot>, content: Text, tree: Tree): seq<Snapshot> {
    var pos := FindSnapshot(memory, content);
    if pos == Some(0) then memory
    else
      var rest := if pos.Some? then memory[..pos.value] + memory[pos.value + 1..] else memory;
      var kept := if |rest| >= FULL_TREE_MEMORY_CAP then rest[..|rest| - 1] else rest;
      [Snapshot(content, tree)] + kept
  }

  function Restored(s: Slot, content: Text, version: nat): Slot
    requires FindSnapshot(s.memory, content).Some?
  {
    var i := FindSnapshot(s.memory, content).value;
    var hit := s.memory[i];
    BumpTreeId(s).(
      full := Some(InstalledTree(hit.tree, version, s.nextTreeId)),
      memory := Moved(s.memory, i))
  }

  function Anchor(s: Slot): Option<nat> {
    if s.full.Some? then Some(s.full.value.version) else BestVersion(s.cache.order, s.cache.entries)
  }

  predicate Identity(c: ChangeSet) {
    forall i :: 0 <= i < |c.changes| ==> c.changes[i].Retain?
  }

  /** `compose` panics unless the pending change ends where the edit starts. */
  predicate Composable(p: Option<Pending>, edit: ChangeSet) {
    Valid(edit) && (p.Some? ==> Valid(p.value.composed) && p.value.composed.lenAfter == edit.len)
  }

  function NextPending(p: Option<Pending>, anchor: nat, before: nat, oldText: Text, edit: ChangeSet): Option<Pending>
    requires Composable(p, edit)
  {
    match p
    case Some(q) =>
      if anchor != q.base then None
      else Some(q.(composed := Composition(q.composed, edit)))
    case None =>
      if anchor == before then Some(Pending(anchor, oldText, edit)) else None
  }

  /** The parser's incremental update: it yields a tree of the new text when it
      is handed a sound tree of the old text and a change between the two. */
  function EngineUpdate(base: Tree, oldText: Text, newText: Text, change: ChangeSet): Tree {
    Tree(newText, base.spoiled || base.text != oldText || !Leads(change, oldText, newText), 0)
  }

  function Parsed(text: Text): Tree { Tree(text, false, 0) }

  /** The tree after an update that edited it in place and then failed. */
  function HalfEdited(t: InstalledTree): InstalledTree {
    t.(tree := t.tree.(spoiled := true, edits := t.tree.edits + 1))
  }

  predicate Leads(c: ChangeSet, from: Text, to: Text) {
    Valid(c) && c.len == |from| && Applied(c, from) == to
  }

  function SyncUpdate(s: Slot, version: nat, newText: Text, outcome: SyncOutcome): Slot {
    if s.full.None? || s.pending.None? || s.full.value.version != s.pending.value.base then s
    else
      var t, p := s.full.value, s.pending.value;
      match outcome
      case Updated =>
        var tree := EngineUpdate(t.tree, p.oldText, newText, p.composed);
        MarkUpdated(BumpTreeId(s).(
          full := Some(InstalledTree(tree, version, s.nextTreeId)),
          pending := None,
          dirty := false))
      case Failed => s
      case FailedAfterEdit => s.(full := Some(HalfEdited(t)))
  }

  /** An undo or redo to a text with a snapshot brings the snapshot back. */
  function HistoryUpdate(s: Slot, version: nat, newText: Text): Slot {
    if FindSnapshot(s.memory, newText).None? then s
    else MarkUpdated(Restored(s, newText, version).(pending := None, dirty := false))
  }

  /** A resident tree of the text before the edit is remembered. */
  function NotedMemory(s: Slot, before: nat, oldText: Text): seq<Snapshot> {
    if s.full.Some? && s.full.value.version == before then Remembered(s.memory, oldText, s.full.value.tree)
    else s.memory
  }

  function NoteEdit(s: Slot, version: nat, oldText: Text, newText: Text, edit: ChangeSet,
                    source: EditSource, outcome: SyncOutcome): Slot
    requires Composable(s.pending, edit)
  {
    var anchor := Anchor(s);
    if anchor.None? || version == 0 then s.(dirty := true, pending := None)
    else
      var s' := Noted(s, version - 1, oldText, edit);
      match source
      case History => if Identity(edit) then s' else HistoryUpdate(s', version, newText)
      case Typing => SyncUpdate(s', version, newText, outcome)
  }

  function Reset(s: Slot): Slot {
    (if HasAnyTree(s) then MarkUpdated(DropTree(s)) else s).(dirty := true, pending := None)
  }

  datatype Hotness = Visible | Warm | Cold

  datatype RetentionPolicy = Keep | DropWhenHidden | DropAfter(ttl: nat)

  /** What a document hidden for `age` loses under the policy. */
  predicate Expired(policy: RetentionPolicy, age: nat) {
    policy.DropWhenHidden? || (policy.DropAfter? && age > policy.ttl)
  }

  /** A finished parse may be installed. */
  predicate Retains(policy: RetentionPolicy, h: Hotness, age: nat) {
    !h.Cold? || !Expired(policy, age)
  }

  predicate DropsFull(s: Slot, policy: RetentionPolicy, age: nat) {
    (s.full.Some? || s.dirty) && Expired(policy, age)
  }

  predicate DropsViewport(s: Slot, policy: RetentionPolicy, age: nat) {
    HasViewport(s.cache) && Expired(policy, age)
  }

  function ApplyRetention(s: Slot, full: RetentionPolicy, viewport: RetentionPolicy, h: Hotness, age: nat): Slot {
    if !h.Cold? then s
    else
      var s' := if DropsFull(s, full, age) then MarkUpdated(DropFull(s).(dirty := false, pending := None)) else s;
      if DropsViewport(s', viewport, age) then MarkUpdated(s'.(cache := EMPTY_CACHE)) else s'
  }

  predicate ShouldInstall(done: nat, resident: Option<nat>, requested: nat, target: nat, dirty: bool) {
    && (resident.Some? ==> done >= resident.value)
    && done >= requested
    && (done == target || resident.None? || (dirty && done > resident.value))
  }

  predicate AllowsFull(s: Slot, done: nat, requested: nat, target: nat) {
    && ShouldInstall(done, VersionOf(s.full), requested, target, s.dirty)
    && (done < target ==> s.full.None? || (s.pending.Some? && s.pending.value.base == done))
  }

  function InstallFull(s: Slot, done: nat, tree: Tree, target: nat): Slot {
    var keep := done < target && s.pending.Some? && s.pending.value.base == done;
    MarkUpdated(BumpTreeId(s).(
      full := Some(InstalledTree(tree, done, s.nextTreeId)),
      pending := if keep then s.pending else None,
      dirty := done != target))
  }

  function InstallViewport(s: Slot, key: nat, urgent: bool, done: nat, tree: Tree): Slot {
    var t := InstalledTree(tree, done, s.nextTreeId);
    var c := TouchOrInsert(s.cache, key);
    if key !in c.entries then s
    else
      var e := c.entries[key];
      var e' := if urgent then e.(stageA := Some(t)) else e.(stageB := Some(t));
      MarkUpdated(BumpTreeId(s).(
        cache := c.(entries := c.entries[key := e']),
        dirty := s.dirty || urgent))
  }

  function Bootstrap(s: Slot, parsed: Option<Tree>, version: nat, idle: bool): Slot {
    var s' := s.(bootstrapAttempted := true);
    if parsed.Some? && idle then
      MarkUpdated(BumpTreeId(s').(
        full := Some(InstalledTree(parsed.value, version, s.nextTreeId)),
        dirty := false,
        pending := None))
    else s'
  }

  // ---------------------------------------------------------------------
  // Policy
  // ---------------------------------------------------------------------

  /** Size classes of documents. */
  datatype Tier = S | M | L

  datatype TierCfg = TierCfg(parseWhenHidden: bool, full: RetentionPolicy, viewport: RetentionPolicy)

  datatype Policy = Policy(sMax: nat, mMax: nat, s: TierCfg, m: TierCfg, l: TierCfg)

  /** The policy the editor ships; times are in milliseconds. */
  const DEFAULT_POLICY := Policy(
    256 * 1024, 1024 * 1024,
    TierCfg(false, Keep, Keep),
    TierCfg(false, DropAfter(60_000), DropAfter(60_000)),
    TierCfg(false, DropWhenHidden, DropAfter(60_000)))

  function TierOf(p: Policy, text: Text): Tier {
    var n := ByteLen(text);
    if n <= p.sMax then S else if n <= p.mMax then M else L
  }

  function Cfg(p: Policy, tier: Tier): TierCfg {
    match tier case S => p.s case M => p.m case L => p.l
  }

  /** No parse work is done for a hidden document, unless its tier says so. */
  predicate WorkDisabled(cfg: TierCfg, h: Hotness) { h.Cold? && !cfg.parseWhenHidden }

  const MAX_PARSE_BYTES := 512 * 1024 * 1024

  /** The parser refuses longer texts before it touches a tree. */
  predicate Parsable(text: Text) { ByteLen(text) < MAX_PARSE_BYTES }

  // ---------------------------------------------------------------------
  // The world around a slot
  // ---------------------------------------------------------------------

  datatype TaskKind =
    | FullParse(content: Text)
    | Incremental(base: Tree, oldText: Text, newText: Text, composed: ChangeSet)

  datatype Task = Task(version: nat, epoch: nat, kind: TaskKind)

  datatype Done = Done(version: nat, tree: Tree)

  /** `history[v]` is the text of version `v`; the last one is current.  `tier`
      is the one of the last poll, `epoch` counts invalidations, and `tasks` and
      `done` are the background parses in flight and finished.  `log` records
      every tree that was ever given an id. */
  datatype World = World(
    policy: Policy,
    slot: Slot,
    history: seq<Text>,
    tier: Option<Tier>,
    language: Option<nat>,
    epoch: nat,
    requested: nat,
    tasks: seq<Task>,
    done: seq<Done>,
    log: seq<InstalledTree>)

  /** `Ensure` to `SpawnBackground` are the phases of a poll.  `age` is the time
      since the document was last visible; `lane` says that a viewport parse is
      in flight and `waiting` that a viewport or failed result is queued. */
  datatype Event =
    | Edit(change: ChangeSet, source: EditSource, outcome: SyncOutcome)
    | ResetSyntax(content: Option<Text>)
    | Sweep(hotness: Hotness, age: nat, lane: bool, waiting: bool)
    | Ensure
    | NewLanguage(id: Option<nat>)
    | NewOptions
    | InstallNext(hotness: Hotness, age: nat, sameOptions: bool)
    | ViewportDone(key: nat, urgent: bool, at: nat, wanted: bool, hotness: Hotness, age: nat)
    | NoLanguage
    | Disabled(lane: bool)
    | ViewportTouched(key: nat)
    | BootstrapParse(ok: bool, lane: bool)
    | SpawnBackground(hotness: Hotness)
    | Finish(task: nat, ok: bool)

  function Current(w: World): nat
    requires w.history != []
  {
    |w.history| - 1
  }

  function CurrentText(w: World): Text
    requires w.history != []
  {
    w.history[|w.history| - 1]
  }

  /** A background parse of this epoch is in flight. */
  predicate Live(w: World) {
    exists i :: 0 <= i < |w.tasks| && w.tasks[i].epoch == w.epoch
  }

  function CurrentTier(w: World): Tier
    requires w.history != []
  {
    TierOf(w.policy, CurrentText(w))
  }

  function CurrentCfg(w: World): TierCfg
    requires w.history != []
  {
    Cfg(w.policy, CurrentTier(w))
  }

  /** A poll with a language is under way. */
  predicate Polled(w: World)
    requires w.history != []
  {
    w.language.Some? && w.tier == Some(CurrentTier(w))
  }

  /** When an event can happen: an edit is a valid changeset of the current
      text, an update that leaves the tree alone failed on the size limit, a
      result comes from a task, a viewport tree from a version in the large
      tier. */
  predicate Enabled(w: World, e: Event)
    requires w.history != []
  {
    match e
    case Edit(change, _, outcome) =>
      && Valid(change) && change.len == |CurrentText(w)|
      && (outcome.Failed? <==> !Parsable(Applied(change, CurrentText(w))))
    case NewLanguage(id) => id != w.language
    case NoLanguage => w.language.None?
    case Disabled(_) => Polled(w) && !CurrentCfg(w).parseWhenHidden
    case InstallNext(_, _, _) => Polled(w) && w.done != []
    case ViewportDone(_, _, at, _, _, _) => Polled(w) && at < |w.history| && TierOf(w.policy, w.history[at]).L?
    case ViewportTouched(_) => Polled(w)
    case BootstrapParse(ok, _) =>
      && Polled(w) && !HasAnyTree(w.slot) && !w.slot.bootstrapAttempted
      && (ok ==> Parsable(CurrentText(w)))
    case SpawnBackground(h) =>
      Polled(w) && !WorkDisabled(CurrentCfg(w), h) && (w.slot.dirty || w.slot.full.None?) && !Live(w)
    case Finish(i, ok) => i < |w.tasks| && (ok ==> Parsable(TaskText(w.tasks[i])))
    case _ => true
  }

  function TaskText(t: Task): Text {
    match t.kind case FullParse(content) => content case Incremental(_, _, newText, _) => newText
  }

  // ---------------------------------------------------------------------
  // Alignment
  // ---------------------------------------------------------------------

  /** A tree of the text at its recorded version. */
  predicate TreeAt(h: seq<Text>, t: Tree, version: nat) {
    version < |h| && (!t.spoiled ==> t.text == h[version])
  }

  predicate PendingOk(h: seq<Text>, p: Option<Pending>) {
    p.Some? ==>
      && p.value.base + 1 < |h|
      && p.value.oldText == h[p.value.base]
      && Leads(p.value.composed, p.value.oldText, h[|h| - 1])
  }

  predicate MemoryOk(memory: seq<Snapshot>) {
    && |memory| <= FULL_TREE_MEMORY_CAP
    && (forall i :: 0 <= i < |memory| ==> !memory[i].tree.spoiled ==> memory[i].tree.text == memory[i].content)
    && (forall i, j :: 0 <= i < j < |memory| ==> memory[i].content != memory[j].content)
  }

  predicate StageOk(h: seq<Text>, t: Option<InstalledTree>) {
    t.Some? ==> TreeAt(h, t.value.tree, t.value.version)
  }

  ghost predicate CacheAligned(h: seq<Text>, c: ViewportCache) {
    && CacheOk(c)
    && (forall k :: k in c.entries ==> StageOk(h, c.entries[k].stageA) && StageOk(h, c.entries[k].stageB))
  }

  ghost predicate SlotAligned(h: seq<Text>, s: Slot) {
    && h != []
    && StageOk(h, s.full)
    && PendingOk(h, s.pending)
    && MemoryOk(s.memory)
    && (s.full.None? ==> s.memory == [])
    && (s.full.Some? && !s.dirty ==> s.full.value.version == |h| - 1)
    && (s.full.Some? && s.pending.Some? ==> s.pending.value.base == s.full.value.version)
    && s.changeId < U64
    && CacheAligned(h, s.cache)
  }

  predicate TaskOk(h: seq<Text>, t: Task) {
    && t.version < |h|
    && match t.kind
       case FullParse(content) => content == h[t.version]
       case Incremental(base, oldText, newText, composed) =>
         newText == h[t.version] && (!base.spoiled ==> base.text == oldText) && Leads(composed, oldText, newText)
  }

  ghost predicate QueuesAligned(h: seq<Text>, tasks: seq<Task>, done: seq<Done>) {
    && (forall i :: 0 <= i < |tasks| ==> TaskOk(h, tasks[i]))
    && (forall i :: 0 <= i < |done| ==> TreeAt(h, done[i].tree, done[i].version))
  }

  /** Ids are handed out in order. */
  ghost predicate IdsAligned(s: Slot, log: seq<InstalledTree>) {
    && s.nextTreeId == |log| % U64
    && (forall i :: 0 <= i < |log| ==> log[i].treeId == i % U64)
  }

  /** No task is from an epoch to come. */
  ghost predicate EpochsAligned(tasks: seq<Task>, epoch: nat) {
    forall i :: 0 <= i < |tasks| ==> tasks[i].epoch <= epoch
  }

  ghost predicate Aligned(w: World) {
    && SlotAligned(w.history, w.slot)
    && QueuesAligned(w.history, w.tasks, w.done)
    && IdsAligned(w.slot, w.log)
    && EpochsAligned(w.tasks, w.epoch)
    && (w.slot.full.Some? ==> w.language.Some?)
  }

  // ---------------------------------------------------------------------
  // Steps
  // ---------------------------------------------------------------------

  /** The background planner: incremental from the resident tree when the
      pending window starts there, a full parse otherwise. */
  function PlanBackground(s: Slot, text: Text): TaskKind {
    if s.pending.Some? && s.full.Some? && s.full.value.version == s.pending.value.base then
      Incremental(s.full.value.tree, s.pending.value.oldText, text, s.pending.value.composed)
    else
      FullParse(text)
  }

  function RunTask(t: Task): Tree {
    match t.kind
    case FullParse(content) => Parsed(content)
    case Incremental(base, oldText, newText, composed) => EngineUpdate(base, oldText, newText, composed)
  }

  /** Records the tree that took an id in going from `s` to `s'`. */
  function LogNew(log: seq<InstalledTree>, s: Slot, s': Slot): seq<InstalledTree> {
    if s'.nextTreeId != s.nextTreeId && s'.full.Some? then log + [s'.full.value] else log
  }

  function WithSlot(w: World, s': Slot): World {
    w.(slot := s', log := LogNew(w.log, w.slot, s'))
  }

  /** Forgets the queue, and with a new epoch every task in flight. */
  function Invalidate(w: World): World { w.(epoch := w.epoch + 1, requested := 0, done := []) }

  /** Whether a sweep invalidates: work for a document that does not parse while
      hidden, or, after something was dropped, a task in flight. */
  predicate Flushes(w: World, cfg: TierCfg, h: Hotness, age: nat, lane: bool, waiting: bool) {
    h.Cold? &&
    if cfg.parseWhenHidden then
      (DropsFull(w.slot, cfg.full, age) || DropsViewport(w.slot, cfg.viewport, age)) && (lane || Live(w))
    else
      lane || waiting || Live(w) || w.done != []
  }

  function Swept(w: World, cfg: TierCfg, h: Hotness, age: nat, lane: bool, waiting: bool): World {
    (if Flushes(w, cfg, h, age, lane, waiting) then Invalidate(w) else w).(
      slot := ApplyRetention(w.slot, cfg.full, cfg.viewport, h, age))
  }

  /** A finished parse is kept out by its options or because work is disabled. */
  predicate Admitted(w: World, h: Hotness, sameOptions: bool)
    requires w.history != []
  {
    sameOptions && !WorkDisabled(CurrentCfg(w), h)
  }

  function RetentionDrop(s: Slot): Slot { MarkUpdated(DropTree(s).(dirty := false)) }

  lemma AlignedComposable(h: seq<Text>, s: Slot, change: ChangeSet)
    requires SlotAligned(h, s) && Valid(change) && change.len == |h[|h| - 1]|
    ensures Composable(s.pending, change)
  {
    if s.pending.Some? {
      AppliedLength(s.pending.value.composed, s.pending.value.oldText);
    }
  }

  lemma AppliedLength(c: ChangeSet, from: Text)
    requires Valid(c) && c.len == |from|
    ensures |Applied(c, from)| == c.lenAfter
    ensures Applied(c, from) == Out(c.changes, from)
  {
    assert from[..c.len] == from && from[c.len..] == [];
  }

  function Edited(w: World, change: ChangeSet, source: EditSource, outcome: SyncOutcome): World
    requires Aligned(w) && Valid(change) && change.len == |CurrentText(w)|
  {
    AlignedComposable(w.history, w.slot, change);
    var text := CurrentText(w);
    var text' := Applied(change, text);
    var s' := NoteEdit(w.slot, |w.history|, text, text', change, source, outcome);
    WithSlot(w, s').(history := w.history + [text'])
  }

  function WasReset(w: World, content: Option<Text>): World {
    var h' := if content.Some? then w.history + [content.value] else w.history;
    Invalidate(w).(slot := Reset(w.slot), history := h')
  }

  function Installed(w: World, h: Hotness, age: nat, sameOptions: bool): World
    requires w.history != [] && w.done != []
  {
    var s, version, d, w' := w.slot, Current(w), w.done[0], w.(done := w.done[1..]);
    var retained := Retains(CurrentCfg(w).full, h, age);
    if !Admitted(w, h, sameOptions) then w'
    else if retained && AllowsFull(s, d.version, w.requested, version) then
      WithSlot(w', InstallFull(s, d.version, d.tree, version))
    else if !retained && d.version == version then w'.(slot := RetentionDrop(s))
    else w'
  }

  function ViewportInstalled(w: World, key: nat, urgent: bool, at: nat): World
    requires at < |w.history|
  {
    var s, tree := w.slot, Parsed(w.history[at]);
    var s' := InstallViewport(s, key, urgent, at, tree);
    w.(slot := s', log := if s' == s then w.log else w.log + [InstalledTree(tree, at, s.nextTreeId)])
  }

  function ViewportFinished(w: World, key: nat, urgent: bool, at: nat, wanted: bool, h: Hotness, age: nat): World
    requires at < |w.history|
  {
    var retained := Retains(CurrentCfg(w).viewport, h, age);
    if WorkDisabled(CurrentCfg(w), h) then w
    else if retained && wanted then ViewportInstalled(w, key, urgent, at)
    else if !retained && at == Current(w) then w.(slot := RetentionDrop(w.slot))
    else w
  }

  function Bootstrapped(w: World, ok: bool, lane: bool): World
    requires w.history != []
  {
    var tree := if ok then Some(Parsed(CurrentText(w))) else None;
    WithSlot(w, Bootstrap(w.slot, tree, Current(w), !lane && !Live(w)))
  }

  function WithTask(w: World): World
    requires w.history != []
  {
    var t := Task(Current(w), w.epoch, PlanBackground(w.slot, CurrentText(w)));
    w.(tasks := w.tasks + [t], requested := Current(w))
  }

  /** A result from another epoch is thrown away. */
  function TaskFinished(w: World, i: nat, ok: bool): World
    requires i < |w.tasks|
  {
    var t := w.tasks[i];
    var w' := w.(tasks := w.tasks[..i] + w.tasks[i + 1..]);
    if ok && t.epoch == w.epoch then w'.(done := w.done + [Done(t.version, RunTask(t))]) else w'
  }

  /** Without a language, or with another one, the trees go. */
  function Dropped(s: Slot): Slot { if HasAnyTree(s) then MarkUpdated(DropTree(s)) else s }

  function Step(w: World, e: Event): World
    requires Aligned(w) && Enabled(w, e)
  {
    match e
    case Edit(change, source, outcome) => Edited(w, change, source, outcome)
    case ResetSyntax(content) => WasReset(w, content)
    case Sweep(h, age, lane, waiting) =>
      if w.tier.None? then w else Swept(w, Cfg(w.policy, w.tier.value), h, age, lane, waiting)
    case Ensure => w.(tier := Some(CurrentTier(w)))
    case NewLanguage(id) => Invalidate(w).(language := id, slot := Dropped(w.slot))
    case NewOptions => Invalidate(w).(slot := MarkUpdated(DropTree(w.slot).(dirty := true)))
    case InstallNext(h, age, sameOptions) => Installed(w, h, age, sameOptions)
    case ViewportDone(key, urgent, at, wanted, h, age) => ViewportFinished(w, key, urgent, at, wanted, h, age)
    case NoLanguage => w.(done := [], slot := Dropped(w.slot).(dirty := false))
    case Disabled(lane) => (if lane || Live(w) then Invalidate(w) else w).(done := [])
    case ViewportTouched(key) => w.(slot := w.slot.(cache := TouchOrInsert(w.slot.cache, key)))
    case BootstrapParse(ok, lane) => Bootstrapped(w, ok, lane)
    case SpawnBackground(_) => WithTask(w)
    case Finish(i, ok) => TaskFinished(w, i, ok)
  }

  // ---------------------------------------------------------------------
  // Preservation
  // ---------------------------------------------------------------------

  lemma RememberedOk(memory: seq<Snapshot>, content: Text, tree: Tree)
    requires MemoryOk(memory) && (!tree.spoiled ==> tree.text == content)
    ensures MemoryOk(Remembered(memory, content, tree))
    ensures FindSnapshot(Remembered(memory, content, tree), content) == Some(0)
  {
    var pos := FindSnapshot(memory, content);
    if pos != Some(0) {
      var rest := if pos.Some? then memory[..pos.value] + memory[pos.value + 1..] else memory;
      if pos.Some? { RemovedOk(memory, pos.value); }
      var kept := if |rest| >= FULL_TREE_MEMORY_CAP then rest[..|rest| - 1] else rest;
      PrependedOk(kept, Snapshot(content, tree));
    }
  }

  lemma RemovedOk(memory: seq<Snapshot>, k: nat)
    requires MemoryOk(memory) && k < |memory|
    ensures var rest := memory[..k] + memory[k + 1..];
      MemoryOk(rest) && forall i :: 0 <= i < |rest| ==> rest[i].content != memory[k].content
  {
    var rest := memory[..k] + memory[k + 1..];
    forall i | 0 <= i < |rest|
      ensures rest[i] == memory[if i < k then i else i + 1] && rest[i].content != memory[k].content
    {
    }
  }

  lemma PrependedOk(kept: seq<Snapshot>, s: Snapshot)
    requires MemoryOk(kept) && |kept| < FULL_TREE_MEMORY_CAP && (!s.tree.spoiled ==> s.tree.text == s.content)
    requires forall i :: 0 <= i < |kept| ==> kept[i].content != s.content
    ensures MemoryOk([s] + kept)
  {
    var all := [s] + kept;
    forall i | 0 < i < |all| ensures all[i] == kept[i - 1] {
    }
  }

  lemma RestoredOk(s: Slot, content: Text, version: nat)
    requires MemoryOk(s.memory) && FindSnapshot(s.memory, content).Some?
    ensures MemoryOk(Restored(s, content, version).memory)
    ensures var t := Restored(s, content, version).full.value.tree;
      !t.spoiled ==> t.text == content
  {
    MovedOk(s.memory, FindSnapshot(s.memory, content).value);
  }

  function Moved(memory: seq<Snapshot>, i: nat): seq<Snapshot>
    requires i < |memory|
  {
    [memory[i]] + memory[..i] + memory[i + 1..]
  }

  function MovedFrom(i: nat, j: nat): nat { if j == 0 then i else if j <= i then j - 1 else j }

  lemma MovedAt(memory: seq<Snapshot>, i: nat, j: nat)
    requires i < |memory| && j < |memory|
    ensures |Moved(memory, i)| == |memory| && Moved(memory, i)[j] == memory[MovedFrom(i, j)]
  {
  }

  lemma MovedOk(memory: seq<Snapshot>, i: nat)
    requires MemoryOk(memory) && i < |memory|
    ensures MemoryOk(Moved(memory, i))
  {
    var m := Moved(memory, i);
    forall j | 0 <= j < |m| ensures !m[j].tree.spoiled ==> m[j].tree.text == m[j].content {
      MovedAt(memory, i, j);
    }
    forall j, k | 0 <= j < k < |m| ensures m[j].content != m[k].content {
      MovedAt(memory, i, j);
      MovedAt(memory, i, k);
      var a, b := MovedFrom(i, j), MovedFrom(i, k);
      if a < b {
        assert memory[a].content != memory[b].content;
      } else {
        assert b < a && memory[b].content != memory[a].content;
      }
    }
  }

  /** Older versions keep their meaning when a version is added. */
  lemma GrowHistory(h: seq<Text>, text: Text, s: Slot)
    requires SlotAligned(h, s)
    ensures StageOk(h + [text], s.full) && CacheAligned(h + [text], s.cache)
  {
  }

  lemma GrowQueues(h: seq<Text>, text: Text, tasks: seq<Task>, done: seq<Done>)
    requires QueuesAligned(h, tasks, done)
    ensures QueuesAligned(h + [text], tasks, done)
  {
    forall i | 0 <= i < |tasks| ensures TaskOk(h + [text], tasks[i]) {
      assert TaskOk(h, tasks[i]);
    }
  }

  /** Extending the window by an edit keeps it leading to the current text. */
  lemma NextPendingOk(h: seq<Text>, p: Option<Pending>, anchor: nat, change: ChangeSet)
    requires h != [] && PendingOk(h, p)
    requires Composable(p, change) && change.len == |h[|h| - 1]|
    ensures var text := h[|h| - 1];
      PendingOk(h + [Applied(change, text)], NextPending(p, anchor, |h| - 1, text, change))
  {
    var text := h[|h| - 1];
    if p.Some? && anchor == p.value.base {
      var q := p.value;
      CompositionApplies(q.composed, change, q.oldText);
    }
  }

  lemma NoteEditAligned(h: seq<Text>, s: Slot, change: ChangeSet, source: EditSource, outcome: SyncOutcome)
    requires SlotAligned(h, s) && Valid(change) && change.len == |h[|h| - 1]|
    ensures Composable(s.pending, change)
    ensures var text := h[|h| - 1];
      SlotAligned(h + [Applied(change, text)],
                  NoteEdit(s, |h|, text, Applied(change, text), change, source, outcome))
  {
    AlignedComposable(h, s, change);
    var text := h[|h| - 1];
    var text' := Applied(change, text);
    var h' := h + [text'];
    GrowHistory(h, text', s);
    NotedAligned(h, s, change);
    if Anchor(s).Some? {
      var s' := Noted(s, |h| - 1, text, change);
      HistoryUpdateAligned(h', s');
      SyncUpdateAligned(h', s', outcome);
    }
  }

  /** The slot between the window and the update. */
  function Noted(s: Slot, before: nat, oldText: Text, edit: ChangeSet): Slot
    requires Composable(s.pending, edit) && Anchor(s).Some?
  {
    s.(dirty := true, memory := NotedMemory(s, before, oldText),
       pending := NextPending(s.pending, Anchor(s).value, before, oldText, edit))
  }

  lemma NotedAligned(h: seq<Text>, s: Slot, change: ChangeSet)
    requires SlotAligned(h, s) && Valid(change) && change.len == |h[|h| - 1]|
    ensures Composable(s.pending, change)
    ensures Anchor(s).Some? ==>
      var text := h[|h| - 1];
      SlotAligned(h + [Applied(change, text)], Noted(s, |h| - 1, text, change))
  {
    AlignedComposable(h, s, change);
    var text := h[|h| - 1];
    GrowHistory(h, Applied(change, text), s);
    if Anchor(s).Some? {
      NextPendingOk(h, s.pending, Anchor(s).value, change);
      if s.full.Some? && s.full.value.version == |h| - 1 {
        RememberedOk(s.memory, text, s.full.value.tree);
      }
    }
  }

  lemma HistoryUpdateAligned(h: seq<Text>, s: Slot)
    requires SlotAligned(h, s)
    ensures SlotAligned(h, HistoryUpdate(s, |h| - 1, h[|h| - 1]))
  {
    if FindSnapshot(s.memory, h[|h| - 1]).Some? {
      RestoredOk(s, h[|h| - 1], |h| - 1);
    }
  }

  lemma SyncUpdateAligned(h: seq<Text>, s: Slot, outcome: SyncOutcome)
    requires SlotAligned(h, s) && s.dirty
    ensures SlotAligned(h, SyncUpdate(s, |h| - 1, h[|h| - 1], outcome))
  {
  }

  /** An operation that took at most one id, for the tree now resident. */
  predicate TakesIdFor(s: Slot, s': Slot) {
    || s'.nextTreeId == s.nextTreeId
    || (s'.nextTreeId == Tick(s.nextTreeId) && s'.full.Some? && s'.full.value.treeId == s.nextTreeId)
  }

  lemma LogNewIds(log: seq<InstalledTree>, s: Slot, s': Slot)
    requires IdsAligned(s, log) && TakesIdFor(s, s')
    ensures IdsAligned(s', LogNew(log, s, s'))
  {
    NextResidue(|log|);
  }

  lemma NoteEditTakesId(s: Slot, version: nat, oldText: Text, newText: Text, edit: ChangeSet,
                        source: EditSource, outcome: SyncOutcome)
    requires Composable(s.pending, edit)
    ensures TakesIdFor(s, NoteEdit(s, version, oldText, newText, edit, source, outcome))
  {
  }

  lemma InstallFullAligned(h: seq<Text>, s: Slot, done: nat, tree: Tree)
    requires SlotAligned(h, s) && TreeAt(h, tree, done)
    ensures SlotAligned(h, InstallFull(s, done, tree, |h| - 1))
  {
  }

  lemma DropTreeAligned(h: seq<Text>, s: Slot)
    requires SlotAligned(h, s)
    ensures SlotAligned(h, RetentionDrop(s))
  {
  }

  lemma QueueTail(h: seq<Text>, tasks: seq<Task>, done: seq<Done>)
    requires QueuesAligned(h, tasks, done) && done != []
    ensures QueuesAligned(h, tasks, done[1..])
  {
  }

  lemma InstallNextAligned(w: World, e: Event)
    requires Aligned(w) && Enabled(w, e) && e.InstallNext?
    ensures Aligned(Step(w, e))
  {
    var s, d := w.slot, w.done[0];
    assert TreeAt(w.history, d.tree, d.version);
    QueueTail(w.history, w.tasks, w.done);
    var w' := w.(done := w.done[1..]);
    InstallFullAligned(w.history, s, d.version, d.tree);
    WithSlotAligned(w', InstallFull(s, d.version, d.tree, Current(w)));
    DropTreeAligned(w.history, s);
  }

  lemma WithSlotAligned(w: World, s': Slot)
    requires Aligned(w) && SlotAligned(w.history, s') && TakesIdFor(w.slot, s') && w.language.Some?
    ensures Aligned(WithSlot(w, s'))
  {
    LogNewIds(w.log, w.slot, s');
  }

  lemma InstallViewportAligned(h: seq<Text>, s: Slot, key: nat, urgent: bool, at: nat)
    requires SlotAligned(h, s) && at < |h|
    ensures SlotAligned(h, InstallViewport(s, key, urgent, at, Parsed(h[at])))
  {
    TouchOrInsertOk(s.cache, key);
  }

  lemma LogOther(log: seq<InstalledTree>, s: Slot, s': Slot, t: InstalledTree)
    requires IdsAligned(s, log)
    requires s'.full == s.full && s'.nextTreeId == Tick(s.nextTreeId) && t.treeId == s.nextTreeId
    ensures IdsAligned(s', log + [t])
  {
    NextResidue(|log|);
  }

  lemma ViewportDoneAligned(w: World, e: Event)
    requires Aligned(w) && Enabled(w, e) && e.ViewportDone?
    ensures Aligned(Step(w, e))
  {
    DropTreeAligned(w.history, w.slot);
    ViewportInstalledAligned(w, e.key, e.urgent, e.at);
  }

  lemma ViewportInstalledAligned(w: World, key: nat, urgent: bool, at: nat)
    requires Aligned(w) && at < |w.history|
    ensures Aligned(ViewportInstalled(w, key, urgent, at))
  {
    var s, tree := w.slot, Parsed(w.history[at]);
    InstallViewportAligned(w.history, s, key, urgent, at);
    var s' := InstallViewport(s, key, urgent, at, tree);
    if s' != s {
      LogOther(w.log, s, s', InstalledTree(tree, at, s.nextTreeId));
    }
  }

  lemma FinishAligned(w: World, e: Event)
    requires Aligned(w) && Enabled(w, e) && e.Finish?
    ensures Aligned(Step(w, e))
  {
    var t := w.tasks[e.task];
    TaskGone(w.history, w.tasks, w.done, w.epoch, e.task);
    ResultOk(w.history, w.tasks[..e.task] + w.tasks[e.task + 1..], w.done, t);
  }

  lemma TaskGone(h: seq<Text>, tasks: seq<Task>, done: seq<Done>, epoch: nat, k: nat)
    requires QueuesAligned(h, tasks, done) && EpochsAligned(tasks, epoch) && k < |tasks|
    ensures var rest := tasks[..k] + tasks[k + 1..];
      QueuesAligned(h, rest, done) && EpochsAligned(rest, epoch) && TaskOk(h, tasks[k])
  {
    var rest := tasks[..k] + tasks[k + 1..];
    forall i | 0 <= i < |rest| ensures TaskOk(h, rest[i]) && rest[i].epoch <= epoch {
      assert rest[i] == tasks[if i < k then i else i + 1];
    }
  }

  lemma ResultOk(h: seq<Text>, tasks: seq<Task>, done: seq<Done>, t: Task)
    requires QueuesAligned(h, tasks, done) && TaskOk(h, t)
    ensures QueuesAligned(h, tasks, done + [Done(t.version, RunTask(t))])
  {
  }

  lemma EditAligned(w: World, e: Event)
    requires Aligned(w) && Enabled(w, e) && e.Edit?
    ensures Aligned(Step(w, e))
  {
    var s', text' := EditFacts(w, e);
    EditedAligned(w, s', text');
  }

  lemma EditFacts(w: World, e: Event) returns (s': Slot, text': Text)
    requires Aligned(w) && Enabled(w, e) && e.Edit?
    ensures SlotAligned(w.history + [text'], s') && TakesIdFor(w.slot, s')
    ensures w.slot.full.None? ==> s'.full.None?
    ensures Step(w, e) == w.(slot := s', log := LogNew(w.log, w.slot, s'), history := w.history + [text'])
  {
    s', text' := EditedFacts(w, e.change, e.source, e.outcome);
  }

  lemma EditedFacts(w: World, change: ChangeSet, source: EditSource, outcome: SyncOutcome)
    returns (s': Slot, text': Text)
    requires Aligned(w) && Valid(change) && change.len == |CurrentText(w)|
    ensures SlotAligned(w.history + [text'], s') && TakesIdFor(w.slot, s')
    ensures w.slot.full.None? ==> s'.full.None?
    ensures Edited(w, change, source, outcome)
         == w.(slot := s', log := LogNew(w.log, w.slot, s'), history := w.history + [text'])
  {
    var s, text := w.slot, CurrentText(w);
    AlignedComposable(w.history, s, change);
    text' := Applied(change, text);
    s' := NoteEdit(s, |w.history|, text, text', change, source, outcome);
    NotedSlot(w.history, s, text, text', change, source, outcome);
  }

  lemma NotedSlot(h: seq<Text>, s: Slot, text: Text, text': Text, change: ChangeSet,
                  source: EditSource, outcome: SyncOutcome)
    requires SlotAligned(h, s) && text == h[|h| - 1] && Leads(change, text, text') && Composable(s.pending, change)
    ensures var s' := NoteEdit(s, |h|, text, text', change, source, outcome);
      && SlotAligned(h + [text'], s') && TakesIdFor(s, s') && (s.full.None? ==> s'.full.None?)
  {
    NoteEditAligned(h, s, change, source, outcome);
    NoteEditTakesId(s, |h|, text, text', change, source, outcome);
    if s.full.None? { NoteEditNone(s, |h|, text, text', change, source, outcome); }
  }

  lemma EditedAligned(w: World, s': Slot, text': Text)
    requires Aligned(w) && SlotAligned(w.history + [text'], s') && TakesIdFor(w.slot, s')
    requires w.slot.full.None? ==> s'.full.None?
    ensures Aligned(w.(slot := s', log := LogNew(w.log, w.slot, s'), history := w.history + [text']))
  {
    GrowQueues(w.history, text', w.tasks, w.done);
    LogNewIds(w.log, w.slot, s');
  }

  lemma EditParts(w: World, e: Event)
    requires Aligned(w) && Enabled(w, e) && e.Edit?
    ensures Composable(w.slot.pending, e.change)
    ensures var text' := Applied(e.change, CurrentText(w));
      var s' := NoteEdit(w.slot, |w.history|, CurrentText(w), text', e.change, e.source, e.outcome);
      Step(w, e) == w.(slot := s', log := LogNew(w.log, w.slot, s'), history := w.history + [text'])
  {
    AlignedComposable(w.history, w.slot, e.change);
  }

  lemma ResetAligned(w: World, e: Event)
    requires Aligned(w) && Enabled(w, e) && e.ResetSyntax?
    ensures Aligned(Step(w, e))
  {
    if e.content.Some? {
      GrowHistory(w.history, e.content.value, w.slot);
      GrowQueues(w.history, e.content.value, w.tasks, w.done);
    }
  }

  /** Every step keeps the alignment. */
  lemma StepAligned(w: World, e: Event)
    requires Aligned(w) && Enabled(w, e)
    ensures Aligned(Step(w, e))
  {
    match e
    case Edit(_, _, _) => EditAligned(w, e);
    case ResetSyntax(_) => ResetAligned(w, e);
    case Finish(_, _) => FinishAligned(w, e);
    case InstallNext(_, _, _) => InstallNextAligned(w, e);
    case ViewportDone(_, _, _, _, _, _) => ViewportDoneAligned(w, e);
    case ViewportTouched(key) => TouchOrInsertOk(w.slot.cache, key);
    case BootstrapParse(_, _) => LogNewIds(w.log, w.slot, Step(w, e).slot);
    case SpawnBackground(_) => SpawnAligned(w, e);
    case Sweep(_, _, _, _) => SweepAligned(w, e);
    case _ => LanguageAligned(w, e);
  }

  lemma SpawnAligned(w: World, e: Event)
    requires Aligned(w) && Enabled(w, e) && e.SpawnBackground?
    ensures Aligned(Step(w, e))
  {
    assert TaskOk(w.history, Step(w, e).tasks[|w.tasks|]);
  }

  lemma SweepAligned(w: World, e: Event)
    requires Aligned(w) && Enabled(w, e) && e.Sweep?
    ensures Aligned(Step(w, e))
  {
    if w.tier.Some? {
      var cfg := Cfg(w.policy, w.tier.value);
      RetentionAligned(w.history, w.slot, cfg.full, cfg.viewport, e.hotness, e.age);
      SweptTrees(w.slot, cfg.full, cfg.viewport, e.hotness, e.age);
    }
  }

  lemma RetentionAligned(h: seq<Text>, s: Slot, full: RetentionPolicy, viewport: RetentionPolicy,
                         hotness: Hotness, age: nat)
    requires SlotAligned(h, s)
    ensures SlotAligned(h, ApplyRetention(s, full, viewport, hotness, age))
    ensures ApplyRetention(s, full, viewport, hotness, age).nextTreeId == s.nextTreeId
  {
  }

  /** The phases of a poll that concern the language, the options and the tier. */
  predicate Gates(e: Event) {
    e.Ensure? || e.NewOptions? || e.NewLanguage? || e.NoLanguage? || e.Disabled?
  }

  lemma LanguageAligned(w: World, e: Event)
    requires Aligned(w) && Enabled(w, e) && Gates(e)
    ensures Aligned(Step(w, e))
  {
  }

  // ---------------------------------------------------------------------
  // Whole runs
  // ---------------------------------------------------------------------

  function Opened(policy: Policy, text: Text): (w: World)
    ensures Aligned(w) && Sound(w)
  {
    World(policy, EMPTY_SLOT, [text], None, None, 0, 0, [], [], [])
  }

  ghost predicate Possible(w: World, es: seq<Event>)
    requires Aligned(w)
    decreases |es|
  {
    es == [] || (Enabled(w, es[0]) && (StepAligned(w, es[0]); Possible(Step(w, es[0]), es[1..])))
  }

  ghost function Run(w: World, es: seq<Event>): (w': World)
    requires Aligned(w) && Possible(w, es)
    ensures Aligned(w')
    decreases |es|
  {
    if es == [] then w
    else
      StepAligned(w, es[0]);
      Run(Step(w, es[0]), es[1..])
  }

  ghost predicate SoundMemory(memory: seq<Snapshot>) {
    forall i :: 0 <= i < |memory| ==> !memory[i].tree.spoiled
  }

  /** No tree anywhere was edited without being reparsed. */
  ghost predicate Sound(w: World) {
    && (w.slot.full.Some? ==> !w.slot.full.value.tree.spoiled)
    && SoundMemory(w.slot.memory)
    && (forall i :: 0 <= i < |w.tasks| ==> w.tasks[i].kind.Incremental? ==> !w.tasks[i].kind.base.spoiled)
    && (forall i :: 0 <= i < |w.done| ==> !w.done[i].tree.spoiled)
  }

  /** An update is attempted on the resident tree: the window it needs is
      already open at that tree, or opens with this edit. */
  predicate SyncAttempted(s: Slot, before: nat) {
    s.full.Some? && s.full.value.version == (if s.pending.Some? then s.pending.value.base else before)
  }

  predicate Spoils(w: World, e: Event)
    requires w.history != []
  {
    e.Edit? && e.source.Typing? && e.outcome.FailedAfterEdit? && SyncAttempted(w.slot, Current(w))
  }

  /** Trees stay sound exactly as long as no attempted update fails halfway. */
  lemma SoundStep(w: World, e: Event)
    requires Aligned(w) && Enabled(w, e) && Sound(w)
    ensures Sound(Step(w, e)) <==> !Spoils(w, e)
  {
    if e.Edit? { EditSound(w, e); } else { OtherSound(w, e); }
  }

  lemma OtherSound(w: World, e: Event)
    requires Aligned(w) && Enabled(w, e) && Sound(w) && !e.Edit?
    ensures Sound(Step(w, e))
  {
    if e.Finish? {
      FinishSound(w, e);
    } else if e.ViewportDone? || e.ViewportTouched? || e.BootstrapParse? {
      ViewportSound(w, e);
    } else if e.Sweep? || e.ResetSyntax? {
      DropSound(w, e);
    } else if e.SpawnBackground? {
      SpawnSound(w, e);
    } else if e.InstallNext? {
      InstallSound(w, e);
    } else {
      LanguageSound(w, e);
    }
  }

  lemma FinishSound(w: World, e: Event)
    requires Aligned(w) && Enabled(w, e) && Sound(w) && e.Finish?
    ensures Sound(Step(w, e))
  {
    assert TaskOk(w.history, w.tasks[e.task]);
  }

  lemma ViewportSound(w: World, e: Event)
    requires Aligned(w) && Enabled(w, e) && Sound(w) && (e.ViewportDone? || e.ViewportTouched? || e.BootstrapParse?)
    ensures Sound(Step(w, e))
  {
  }

  lemma DropSound(w: World, e: Event)
    requires Aligned(w) && Enabled(w, e) && Sound(w) && (e.Sweep? || e.ResetSyntax?)
    ensures Sound(Step(w, e))
  {
    if e.ResetSyntax? {
      ResetTrees(w.slot);
    } else if w.tier.Some? {
      var cfg := Cfg(w.policy, w.tier.value);
      SweptTrees(w.slot, cfg.full, cfg.viewport, e.hotness, e.age);
    }
  }

  lemma SweptTrees(s: Slot, full: RetentionPolicy, viewport: RetentionPolicy, h: Hotness, age: nat)
    ensures var s' := ApplyRetention(s, full, viewport, h, age);
      (s'.full == s.full && s'.memory == s.memory) || (s'.full == None && s'.memory == [])
  {
  }

  lemma ResetTrees(s: Slot)
    ensures (Reset(s).full == s.full && Reset(s).memory == s.memory) || (Reset(s).full == None && Reset(s).memory == [])
  {
  }

  lemma SpawnSound(w: World, e: Event)
    requires Aligned(w) && Enabled(w, e) && Sound(w) && e.SpawnBackground?
    ensures Sound(Step(w, e))
  {
  }

  lemma InstallSound(w: World, e: Event)
    requires Aligned(w) && Enabled(w, e) && Sound(w) && e.InstallNext?
    ensures Sound(Step(w, e))
  {
  }

  lemma LanguageSound(w: World, e: Event)
    requires Aligned(w) && Enabled(w, e) && Sound(w) && Gates(e)
    ensures Sound(Step(w, e))
  {
  }

  lemma EditSound(w: World, e: Event)
    requires Aligned(w) && Enabled(w, e) && Sound(w) && e.Edit?
    ensures Sound(Step(w, e)) <==> !Spoils(w, e)
  {
    EditParts(w, e);
    NoteEditSound(w.history, w.slot, e.change, e.source, e.outcome);
  }

  lemma NoteEditSound(h: seq<Text>, s: Slot, change: ChangeSet, source: EditSource, outcome: SyncOutcome)
    requires SlotAligned(h, s) && Valid(change) && change.len == |h[|h| - 1]|
    requires SoundMemory(s.memory) && (s.full.Some? ==> !s.full.value.tree.spoiled)
    ensures Composable(s.pending, change)
    ensures var s' := NoteEdit(s, |h|, h[|h| - 1], Applied(change, h[|h| - 1]), change, source, outcome);
      var spoils := source.Typing? && outcome.FailedAfterEdit? && SyncAttempted(s, |h| - 1);
      SoundMemory(s'.memory) && (spoils <==> s'.full.Some? && s'.full.value.tree.spoiled)
  {
    AlignedComposable(h, s, change);
    var text := h[|h| - 1];
    var text' := Applied(change, text);
    NoteEditMemory(s, |h|, text, text', change, source, outcome);
    if s.full.Some? {
      NextPendingOk(h, s.pending, s.full.value.version, change);
      NoteEditFull(s, |h|, text, text', change, source, outcome);
    } else {
      NoteEditNone(s, |h|, text, text', change, source, outcome);
    }
  }

  /** Snapshots are old snapshots or the tree that was resident. */
  lemma NoteEditMemory(s: Slot, version: nat, oldText: Text, newText: Text, edit: ChangeSet,
                       source: EditSource, outcome: SyncOutcome)
    requires Composable(s.pending, edit)
    requires SoundMemory(s.memory)
    requires s.full.Some? ==> !s.full.value.tree.spoiled
    ensures var s' := NoteEdit(s, version, oldText, newText, edit, source, outcome);
      && SoundMemory(s'.memory)
      && (source.History? && s'.full.Some? ==> !s'.full.value.tree.spoiled)
  {
    if Anchor(s).Some? && version > 0 {
      NotedSound(s, version - 1, oldText, edit);
      RestoredSound(Noted(s, version - 1, oldText, edit), newText, version);
    }
  }

  lemma NotedSound(s: Slot, before: nat, oldText: Text, edit: ChangeSet)
    requires Composable(s.pending, edit) && Anchor(s).Some?
    requires SoundMemory(s.memory) && (s.full.Some? ==> !s.full.value.tree.spoiled)
    ensures var s' := Noted(s, before, oldText, edit); SoundMemory(s'.memory) && s'.full == s.full
  {
    if s.full.Some? {
      RememberedSound(s.memory, oldText, s.full.value.tree);
    }
  }

  lemma NoteEditNone(s: Slot, version: nat, oldText: Text, newText: Text, edit: ChangeSet,
                     source: EditSource, outcome: SyncOutcome)
    requires Composable(s.pending, edit) && s.full.None? && s.memory == []
    ensures NoteEdit(s, version, oldText, newText, edit, source, outcome).full.None?
  {
  }

  lemma RememberedSound(memory: seq<Snapshot>, content: Text, tree: Tree)
    requires SoundMemory(memory) && !tree.spoiled
    ensures SoundMemory(Remembered(memory, content, tree))
  {
  }

  lemma RestoredSound(s: Slot, newText: Text, version: nat)
    requires SoundMemory(s.memory) && (s.full.Some? ==> !s.full.value.tree.spoiled)
    ensures var s' := HistoryUpdate(s, version, newText);
      SoundMemory(s'.memory) && (s'.full.Some? ==> !s'.full.value.tree.spoiled)
  {
  }

  /** What an edit does to a resident full tree. */
  lemma NoteEditFull(s: Slot, version: nat, oldText: Text, newText: Text, edit: ChangeSet,
                     source: EditSource, outcome: SyncOutcome)
    requires Composable(s.pending, edit) && s.full.Some? && s.full.value.version < version
    ensures var s' := NoteEdit(s, version, oldText, newText, edit, source, outcome);
      var attempted := source.Typing? && SyncAttempted(s, version - 1);
      && s'.full.Some?
      && s'.full.value.version == (if s'.dirty then s.full.value.version else version)
      && (attempted && outcome.FailedAfterEdit? ==> s'.full.value.tree.spoiled)
      && (attempted && outcome.Updated? ==>
            var p := NextPending(s.pending, s.full.value.version, version - 1, oldText, edit).value;
            s'.full.value.tree == EngineUpdate(s.full.value.tree, p.oldText, newText, p.composed))
      && (s'.full == s.full || (attempted && outcome.FailedAfterEdit?)
          || (!s'.dirty && s'.changeId == Tick(s.changeId)))
      && (source.Typing? && !attempted ==> s'.full == s.full)
      && (attempted ==> s'.dirty == !outcome.Updated?)
      && (attempted && !outcome.Updated? ==>
            s'.pending == NextPending(s.pending, s.full.value.version, version - 1, oldText, edit))
      && (attempted && outcome.Failed? ==> s'.full == s.full)
  {
  }

  ghost predicate Exact(w: World) {
    && Sound(w) && w.history != []
    && (w.slot.full.Some? ==>
          w.slot.full.value.version < |w.history|
          && w.slot.full.value.tree.text == w.history[w.slot.full.value.version])
    && (forall i :: 0 <= i < |w.slot.memory| ==> w.slot.memory[i].tree.text == w.slot.memory[i].content)
    && (forall i :: 0 <= i < |w.done| ==>
          w.done[i].version < |w.history| && w.done[i].tree.text == w.history[w.done[i].version])
    && (w.slot.pending.Some? ==>
          Leads(w.slot.pending.value.composed, w.slot.pending.value.oldText, CurrentText(w)))
  }

  /** No update fails halfway along the run. */
  ghost predicate NeverSpoils(w: World, es: seq<Event>)
    requires Aligned(w) && Possible(w, es)
    decreases |es|
  {
    es == [] || (!Spoils(w, es[0]) && (StepAligned(w, es[0]); NeverSpoils(Step(w, es[0]), es[1..])))
  }

  /** In every run in which no attempted update fails after editing the tree,
      the resident tree, every remembered snapshot and every finished parse is
      a tree of exactly the text it is recorded for, and an open window leads
      from its saved text to the current text. */
  lemma {:induction false} RunsAreExact(w: World, es: seq<Event>)
    requires Aligned(w) && Sound(w) && Possible(w, es) && NeverSpoils(w, es)
    ensures Exact(Run(w, es))
    decreases |es|
  {
    if es != [] {
      SoundStep(w, es[0]);
      StepAligned(w, es[0]);
      RunsAreExact(Step(w, es[0]), es[1..]);
    }
  }

  /** The same from the moment a document is opened. */
  lemma OpenedRunsAreExact(policy: Policy, text: Text, es: seq<Event>)
    requires Possible(Opened(policy, text), es) && NeverSpoils(Opened(policy, text), es)
    ensures Exact(Run(Opened(policy, text), es))
  {
    RunsAreExact(Opened(policy, text), es);
  }

  /** Soundness does fail: from every aligned slot with a resident tree of the
      current version, a typing edit whose update fails halfway followed by one
      whose update succeeds leaves a clean tree for the newest version that was
      reparsed from the half-edited one. */
  lemma HalfEditedTreeSurvives(h: seq<Text>, s: Slot, one: ChangeSet, two: ChangeSet)
    requires SlotAligned(h, s) && s.full.Some? && s.pending.None? && s.full.value.version == |h| - 1
    requires Valid(one) && one.len == |h[|h| - 1]| && Valid(two) && two.len == one.lenAfter
    ensures var t0 := h[|h| - 1];
      var t1 := Applied(one, t0);
      && |t1| == two.len
      && Composable(s.pending, one)
      && var s1 := NoteEdit(s, |h|, t0, t1, one, Typing, FailedAfterEdit);
         && Composable(s1.pending, two)
         && var s2 := NoteEdit(s1, |h| + 1, t1, Applied(two, t1), two, Typing, Updated);
            s2.full.Some? && s2.full.value.version == |h| + 1 && !s2.dirty && s2.full.value.tree.spoiled
  {
    var t0 := h[|h| - 1];
    var t1 := Applied(one, t0);
    AppliedLength(one, t0);
    NoteEditFull(s, |h|, t0, t1, one, Typing, FailedAfterEdit);
    var s1 := NoteEdit(s, |h|, t0, t1, one, Typing, FailedAfterEdit);
    NextPendingOk(h, s.pending, |h| - 1, one);
    SpoiledUpdate(s1, |h| + 1, t1, Applied(two, t1), two);
  }

  lemma SpoiledUpdate(s: Slot, version: nat, oldText: Text, newText: Text, edit: ChangeSet)
    requires Composable(s.pending, edit) && s.full.Some? && s.full.value.tree.spoiled && s.full.value.version < version
    requires s.pending.Some? && s.pending.value.base == s.full.value.version
    ensures var s' := NoteEdit(s, version, oldText, newText, edit, Typing, Updated);
      s'.full.Some? && s'.full.value.version == version && !s'.dirty && s'.full.value.tree.spoiled
  {
    NoteEditFull(s, version, oldText, newText, edit, Typing, Updated);
  }

  // ---------------------------------------------------------------------
  // Ids and change counters
  // ---------------------------------------------------------------------

  /** A typing edit while the window is at the resident tree. */
  lemma TypingStep(w: World, change: ChangeSet, outcome: SyncOutcome)
    requires Aligned(w) && Enabled(w, Edit(change, Typing, outcome)) && SyncAttempted(w.slot, Current(w))
    ensures var w' := Step(w, Edit(change, Typing, outcome));
      && w' == w.(slot := w'.slot, history := w'.history, log := w'.log)
      && |w'.history| == |w.history| + 1 && CurrentText(w') == Applied(change, CurrentText(w))
      && w'.slot.full.Some? && w'.slot.dirty == !outcome.Updated?
      && w'.slot.full.value.version == (if outcome.Updated? then |w.history| else w.slot.full.value.version)
      && (!outcome.Updated? ==>
            && SyncAttempted(w'.slot, Current(w'))
            && w'.slot.pending.Some? && w'.slot.pending.value.base == w.slot.full.value.version)
  {
    var s, text := w.slot, CurrentText(w);
    EditParts(w, Edit(change, Typing, outcome));
    NoteEditFull(s, |w.history|, text, Applied(change, text), change, Typing, outcome);
  }

  lemma EditFull(w: World, e: Event)
    requires Aligned(w) && Enabled(w, e) && e.Edit?
    ensures var s, s' := w.slot, Step(w, e).slot;
      && (s.full.None? ==> s'.full.None?)
      && (s.full.Some? ==> s'.full.Some? && s.full.value.version <= s'.full.value.version)
      && (s'.full.Some? ==> s'.full.value.version in {s.full.value.version, |w.history|})
      && (s'.full == s.full || Spoils(w, e) || s'.changeId == Tick(s.changeId))
  {
    var s, text := w.slot, CurrentText(w);
    var text' := Applied(e.change, text);
    EditParts(w, e);
    if s.full.Some? {
      NoteEditFull(s, |w.history|, text, text', e.change, e.source, e.outcome);
    } else {
      NoteEditNone(s, |w.history|, text, text', e.change, e.source, e.outcome);
    }
  }

  /** What an edit does to the resident tree's identity. */
  lemma EditIds(w: World, e: Event)
    requires Aligned(w) && Enabled(w, e) && e.Edit?
    ensures var s, s' := w.slot, Step(w, e).slot;
      && (Spoils(w, e) ==>
            && s.full.Some? && s'.full == Some(HalfEdited(s.full.value))
            && s'.nextTreeId == s.nextTreeId && s'.changeId == s.changeId)
      && (!Spoils(w, e) ==>
            || (s'.full == s.full && s'.nextTreeId == s.nextTreeId)
            || (s'.full.Some? && s'.full.value.treeId == s.nextTreeId && s'.nextTreeId == Tick(s.nextTreeId)))
  {
    var text := CurrentText(w);
    EditParts(w, e);
    NoteEditIds(w.slot, |w.history|, text, Applied(e.change, text), e.change, e.source, e.outcome);
  }

  lemma NoteEditIds(s: Slot, version: nat, oldText: Text, newText: Text, edit: ChangeSet,
                    source: EditSource, outcome: SyncOutcome)
    requires Composable(s.pending, edit) && version > 0
    ensures var s' := NoteEdit(s, version, oldText, newText, edit, source, outcome);
      if source.Typing? && outcome.FailedAfterEdit? && SyncAttempted(s, version - 1) then
        s'.full == Some(HalfEdited(s.full.value)) && s'.nextTreeId == s.nextTreeId && s'.changeId == s.changeId
      else
        || (s'.full == s.full && s'.nextTreeId == s.nextTreeId)
        || (s'.full.Some? && s'.full.value.treeId == s.nextTreeId && s'.nextTreeId == Tick(s.nextTreeId))
  {
  }

  /** Between one and two ticks of the 64-bit change counter. */
  predicate Ticked(c: nat, c': nat) {
    c' == Tick(c) || c' == Tick(Tick(c))
  }

  lemma TickedDiffers(c: nat, c': nat)
    requires c < U64 && Ticked(c, c')
    ensures c' != c
  {
  }

  /** A step that changes the full tree changes the counter that keys the
      highlight cache if and only if it is not an update that fails halfway,
      which always changes the tree. */
  lemma FullChangeIsAnnounced(w: World, e: Event)
    requires Aligned(w) && Enabled(w, e)
    ensures var s, s' := w.slot, Step(w, e).slot;
      && (s'.full != s.full ==> (s'.changeId != s.changeId <==> !Spoils(w, e)))
      && (Spoils(w, e) ==> s'.full != s.full)
  {
    FullChangeTicks(w, e);
    if Ticked(w.slot.changeId, Step(w, e).slot.changeId) {
      TickedDiffers(w.slot.changeId, Step(w, e).slot.changeId);
    }
    if e.Edit? { EditIds(w, e); }
  }

  lemma FullChangeTicks(w: World, e: Event)
    requires Aligned(w) && Enabled(w, e)
    ensures
      var s, s' := w.slot, Step(w, e).slot;
      s'.full == s.full || Spoils(w, e) || Ticked(s.changeId, s'.changeId)
  {
    match e
    case Edit(_, _, _) => EditFull(w, e);
    case Sweep(h, age, _, _) =>
      if w.tier.Some? {
        var cfg := Cfg(w.policy, w.tier.value);
        SweepTicks(w.slot, cfg.full, cfg.viewport, h, age);
      }
    case _ =>
  }

  lemma SweepTicks(s: Slot, full: RetentionPolicy, viewport: RetentionPolicy, h: Hotness, age: nat)
    ensures var s' := ApplyRetention(s, full, viewport, h, age); s'.full == s.full || Ticked(s.changeId, s'.changeId)
  {
  }

  /** The resident tree is the tree that was given its id. */
  predicate ResidentLogged(w: World) {
    w.slot.full.Some? ==> w.slot.full.value in w.log
  }

  /** Before the 64-bit generator wraps, no id is given out twice. */
  lemma IdGivenOnce(s: Slot, log: seq<InstalledTree>, a: InstalledTree, b: InstalledTree)
    requires IdsAligned(s, log) && |log| <= U64 && a in log && b in log && a.treeId == b.treeId
    ensures a == b
  {
    var i :| 0 <= i < |log| && log[i] == a;
    var j :| 0 <= j < |log| && log[j] == b;
    assert i % U64 == i && j % U64 == j;
  }

  lemma LogGrows(w: World, e: Event)
    requires Aligned(w) && Enabled(w, e)
    ensures w.log <= Step(w, e).log
  {
  }

  /** The resident state stays the one its id was given to exactly as long as no
      update fails halfway. */
  lemma LoggedStep(w: World, e: Event)
    requires Aligned(w) && Enabled(w, e) && ResidentLogged(w) && |w.log| <= U64
    ensures ResidentLogged(Step(w, e)) <==> !Spoils(w, e)
  {
    if e.Edit? { EditLogged(w, e); } else { OtherLogged(w, e); }
  }

  lemma EditLogged(w: World, e: Event)
    requires Aligned(w) && Enabled(w, e) && ResidentLogged(w) && |w.log| <= U64 && e.Edit?
    ensures ResidentLogged(Step(w, e)) <==> !Spoils(w, e)
  {
    EditIds(w, e);
    var s', text' := EditFacts(w, e);
    EditedLogged(w, Step(w, e), s', Spoils(w, e));
  }

  lemma EditedLogged(w: World, w': World, s': Slot, spoils: bool)
    requires IdsAligned(w.slot, w.log) && ResidentLogged(w) && |w.log| <= U64
    requires w'.slot == s' && w'.log == LogNew(w.log, w.slot, s')
    requires spoils ==> w.slot.full.Some? && s'.full == Some(HalfEdited(w.slot.full.value))
                        && s'.nextTreeId == w.slot.nextTreeId
    requires !spoils ==>
      || (s'.full == w.slot.full && s'.nextTreeId == w.slot.nextTreeId)
      || (s'.full.Some? && s'.full.value.treeId == w.slot.nextTreeId && s'.nextTreeId == Tick(w.slot.nextTreeId))
    ensures ResidentLogged(w') <==> !spoils
  {
    NextResidue(|w.log|);
    if spoils {
      var t := w.slot.full.value;
      if HalfEdited(t) in w.log { IdGivenOnce(w.slot, w.log, t, HalfEdited(t)); }
    }
  }

  lemma OtherLogged(w: World, e: Event)
    requires Aligned(w) && Enabled(w, e) && ResidentLogged(w) && !e.Edit?
    ensures ResidentLogged(Step(w, e))
  {
    LogGrows(w, e);
    NextResidue(|w.log|);
    if e.InstallNext? { InstallLogged(w, e); }
  }

  lemma InstallLogged(w: World, e: Event)
    requires Aligned(w) && Enabled(w, e) && ResidentLogged(w) && e.InstallNext?
    ensures ResidentLogged(Step(w, e))
  {
    NextResidue(|w.log|);
  }

  lemma {:induction false} LoggedRun(w: World, es: seq<Event>)
    requires Aligned(w) && Possible(w, es) && ResidentLogged(w) && NeverSpoils(w, es)
    requires |Run(w, es).log| <= U64
    ensures w.log <= Run(w, es).log && ResidentLogged(Run(w, es))
    decreases |es|
  {
    if es != [] {
      StepAligned(w, es[0]);
      LogGrows(w, es[0]);
      LogOfRun(Step(w, es[0]), es[1..]);
      LoggedStep(w, es[0]);
      LoggedRun(Step(w, es[0]), es[1..]);
    }
  }

  lemma {:induction false} LogOfRun(w: World, es: seq<Event>)
    requires Aligned(w) && Possible(w, es)
    ensures w.log <= Run(w, es).log
    decreases |es|
  {
    if es != [] {
      StepAligned(w, es[0]);
      LogGrows(w, es[0]);
      LogOfRun(Step(w, es[0]), es[1..]);
    }
  }

  /** Across every run of one slot without a halfway failure, and before the
      generator wraps, an id names one tree state: whenever the same id is
      resident at two points of the run, so is the very same tree. */
  lemma TreeIdNamesOneState(policy: Policy, text: Text, es: seq<Event>, more: seq<Event>)
    requires Possible(Opened(policy, text), es) && NeverSpoils(Opened(policy, text), es)
    requires Possible(Run(Opened(policy, text), es), more) && NeverSpoils(Run(Opened(policy, text), es), more)
    requires |Run(Run(Opened(policy, text), es), more).log| <= U64
    ensures var a, b := Run(Opened(policy, text), es).slot.full, Run(Run(Opened(policy, text), es), more).slot.full;
      a.Some? && b.Some? && a.value.treeId == b.value.treeId ==> a == b
  {
    var w := Run(Opened(policy, text), es);
    var w' := Run(w, more);
    LogOfRun(w, more);
    LoggedRun(Opened(policy, text), es);
    LoggedRun(w, more);
    if w.slot.full.Some? && w'.slot.full.Some? && w.slot.full.value.treeId == w'.slot.full.value.treeId {
      IdGivenOnce(w'.slot, w'.log, w.slot.full.value, w'.slot.full.value);
    }
  }

  // ---------------------------------------------------------------------
  // Highlight projection
  // ---------------------------------------------------------------------

  datatype ProjectionCtx = ProjectionCtx(treeVersion: nat, target: nat, base: Text, composed: ChangeSet)

  function ProjectionFor(s: Slot, treeVersion: nat, target: nat): Option<ProjectionCtx> {
    if treeVersion == target then None
    else if s.pending.None? || s.pending.value.base != treeVersion then None
    else Some(ProjectionCtx(treeVersion, target, s.pending.value.oldText, s.pending.value.composed))
  }

  /** A projection context for the current version starts from the very text of
      the tree's version, ends in the current text, and carries every character
      that survives the edits onto itself. */
  lemma ProjectionIsExact(w: World, treeVersion: nat, p: nat)
    requires Aligned(w) && ProjectionFor(w.slot, treeVersion, Current(w)).Some?
    ensures treeVersion < |w.history|
    ensures var ctx := ProjectionFor(w.slot, treeVersion, Current(w)).value;
      && ctx.base == w.history[treeVersion]
      && Leads(ctx.composed, ctx.base, CurrentText(w))
      && (p < |ctx.base| && Kept(ctx.composed.changes, p) ==>
            var q := MapPos(ctx.composed.changes, p, Right);
            q < |CurrentText(w)| && CurrentText(w)[q] == ctx.base[p])
  {
    var ctx := ProjectionFor(w.slot, treeVersion, Current(w)).value;
    AppliedLength(ctx.composed, ctx.base);
    if p < |ctx.base| && Kept(ctx.composed.changes, p) {
      MapPosFollows(ctx.composed.changes, ctx.base, p);
    }
  }

  /** While edits keep missing their synchronous update, the window stays open
      at the resident tree: its highlights can always be projected. */
  lemma FailedTypingKeepsProjection(w: World, e: Event)
    requires Aligned(w) && Enabled(w, e) && e.Edit? && e.source.Typing? && !e.outcome.Updated?
    requires SyncAttempted(w.slot, Current(w))
    ensures var w' := Step(w, e);
      && SyncAttempted(w'.slot, Current(w'))
      && ProjectionFor(w'.slot, w.slot.full.value.version, Current(w')).Some?
  {
    TypingStep(w, e.change, e.outcome);
  }
}
