// The compile-and-link cache as a protocol: every interleaving of callers,
// refusals and panics over one outer lock and one lock per key.
module LinkCache {
  import opened Options

  type Key = nat
  type SlotId = nat
  type Caller = nat

  datatype Fixture = Fixture(name: string, source: string)

  // The hash, the executable's path and the name check are fixed but arbitrary.
  datatype Config = Config(hash: Fixture -> Key, exe: Fixture -> string, nameOk: Fixture -> bool)

  datatype Result = Path(path: string) | Refused | Panicked

  // Where a call of `compile_and_link` stands.
  datatype Pc =
    | Called
    | WantsMap
    | HoldsMap                              // outer lock held
    | HoldsEntry(slot: SlotId)              // outer lock still held, slot found or inserted
    | WantsSlot(slot: SlotId)
    | HoldsSlot(slot: SlotId)               // per-key lock held from here on
    | Compiling(slot: SlotId)
    | Linking(slot: SlotId)
    | Linked(slot: SlotId, path: string)
    | Returned(result: Result)

  datatype Call = Call(fixture: Fixture, pc: Pc)

  // `key` is the key the slot was inserted under; no step reads it.
  datatype Slot = Slot(key: Key, holder: Option<Caller>, content: Option<string>, poisoned: bool)

  datatype LinkEvent = LinkEvent(key: Key, path: string)

  datatype State = State(
    calls: seq<Call>,
    mapHolder: Option<Caller>,
    table: map<Key, SlotId>,
    slots: seq<Slot>,
    links: seq<LinkEvent>   // successful links, oldest first
  )

  const INITIAL := State([], None, map[], [], [])

  // ------------------------------------------------------------------- actions

  datatype Action =
    | Arrive(fixture: Fixture)
    | CheckName(c: Caller)
    | LockMap(c: Caller)
    | FindSlot(c: Caller)
    | UnlockMap(c: Caller)
    | LockSlot(c: Caller)
    | ReadSlot(c: Caller)
    | CompileOk(c: Caller)
    | Refuse(c: Caller)      // a skip-able failure while compiling or linking
    | Panic(c: Caller)       // a hard failure while compiling or linking
    | LinkOk(c: Caller)
    | Fill(c: Caller)

  predicate Enabled(s: State, a: Action) {
    if a.Arrive? then true
    else if a.c >= |s.calls| then false
    else
      var pc := s.calls[a.c].pc;
      match a
      case CheckName(_) => pc.Called?
      case LockMap(_) => pc.WantsMap? && s.mapHolder.None?
      case FindSlot(_) => pc.HoldsMap?
      case UnlockMap(_) => pc.HoldsEntry?
      case LockSlot(_) => pc.WantsSlot? && pc.slot < |s.slots| && s.slots[pc.slot].holder.None?
      case ReadSlot(_) => pc.HoldsSlot? && pc.slot < |s.slots|
      case CompileOk(_) => pc.Compiling?
      case Refuse(_) => (pc.Compiling? || pc.Linking?) && pc.slot < |s.slots|
      case Panic(_) => (pc.Compiling? || pc.Linking?) && pc.slot < |s.slots|
      case LinkOk(_) => pc.Linking?
      case Fill(_) => pc.Linked? && pc.slot < |s.slots|
  }

  function Goto(s: State, c: Caller, pc: Pc): State
    requires c < |s.calls|
  {
    s.(calls := s.calls[c := s.calls[c].(pc := pc)])
  }

  function WithSlot(s: State, id: SlotId, slot: Slot): State
    requires id < |s.slots|
  {
    s.(slots := s.slots[id := slot])
  }

  function Apply(cfg: Config, s: State, a: Action): State
    requires Enabled(s, a)
  {
    match a
    case Arrive(f) => s.(calls := s.calls + [Call(f, Called)])
    case CheckName(c) => Goto(s, c, if cfg.nameOk(s.calls[c].fixture) then WantsMap else Returned(Panicked))
    case LockMap(c) => Goto(s, c, HoldsMap).(mapHolder := Some(c))
    case FindSlot(c) =>
      var key := cfg.hash(s.calls[c].fixture);
      if key in s.table then Goto(s, c, HoldsEntry(s.table[key]))
      else
        Goto(s, c, HoldsEntry(|s.slots|)).(
          table := s.table[key := |s.slots|], slots := s.slots + [Slot(key, None, None, false)])
    case UnlockMap(c) => Goto(s, c, WantsSlot(s.calls[c].pc.slot)).(mapHolder := None)
    case LockSlot(c) =>
      // a poisoned lock is recovered: the slot is taken whatever `poisoned` says
      var id := s.calls[c].pc.slot;
      WithSlot(Goto(s, c, HoldsSlot(id)), id, s.slots[id].(holder := Some(c)))
    case ReadSlot(c) =>
      var id := s.calls[c].pc.slot;
      match s.slots[id].content {
        case Some(p) => WithSlot(Goto(s, c, Returned(Path(p))), id, s.slots[id].(holder := None))
        case None => Goto(s, c, Compiling(id))
      }
    case CompileOk(c) => Goto(s, c, Linking(s.calls[c].pc.slot))
    case Refuse(c) =>
      var id := s.calls[c].pc.slot;
      WithSlot(Goto(s, c, Returned(Refused)), id, s.slots[id].(holder := None))
    case Panic(c) =>
      var id := s.calls[c].pc.slot;
      WithSlot(Goto(s, c, Returned(Panicked)), id, s.slots[id].(holder := None, poisoned := true))
    case LinkOk(c) =>
      var f := s.calls[c].fixture;
      Goto(s, c, Linked(s.calls[c].pc.slot, cfg.exe(f))).(links := s.links + [LinkEvent(cfg.hash(f), cfg.exe(f))])
    case Fill(c) =>
      var Linked(id, p) := s.calls[c].pc;
      WithSlot(Goto(s, c, Returned(Path(p))), id, s.slots[id].(holder := None, content := Some(p)))
  }

  /** The state after a run, if every action was enabled in its turn. */
  function Run(cfg: Config, actions: seq<Action>): Option<State> {
    if actions == [] then Some(INITIAL)
    else
      match Run(cfg, actions[..|actions| - 1])
      case None => None
      case Some(s) =>
        var a := actions[|actions| - 1];
        if Enabled(s, a) then Some(Apply(cfg, s, a)) else None
  }

  // ------------------------------------------------------------------ invariant

  predicate UsesMap(pc: Pc) { pc.HoldsMap? || pc.HoldsEntry? }

  predicate UsesSlot(pc: Pc) { pc.HoldsSlot? || pc.Compiling? || pc.Linking? || pc.Linked? }

  predicate HasSlot(pc: Pc) { pc.HoldsEntry? || pc.WantsSlot? || UsesSlot(pc) }

  /** Number of successful links of `key`. */
  function LinksOf(links: seq<LinkEvent>, key: Key): nat {
    if links == [] then 0
    else LinksOf(links[..|links| - 1], key) + (if links[|links| - 1].key == key then 1 else 0)
  }

  /** The executable slot `i` stands for: its content, or what its holder has linked but not yet stored. */
  function Built(s: State, i: SlotId): Option<string>
    requires i < |s.slots|
  {
    if s.slots[i].content.Some? then s.slots[i].content
    else match s.slots[i].holder
         case Some(c) => if c < |s.calls| && s.calls[c].pc.Linked? then Some(s.calls[c].pc.path) else None
         case None => None
  }

  predicate CallOk(cfg: Config, s: State, c: Caller)
    requires c < |s.calls|
  {
    var pc := s.calls[c].pc;
    var key := cfg.hash(s.calls[c].fixture);
    && (UsesMap(pc) <==> s.mapHolder == Some(c))
    && (pc.WantsMap? || UsesMap(pc) || HasSlot(pc) ==> cfg.nameOk(s.calls[c].fixture))
    && (HasSlot(pc) ==> pc.slot < |s.slots| && s.slots[pc.slot].key == key)
    && (UsesSlot(pc) ==> s.slots[pc.slot].holder == Some(c))
    && (pc.Compiling? || pc.Linking? || pc.Linked? ==> s.slots[pc.slot].content.None?)
    && (pc.Returned? && pc.result.Path? ==>
          key in s.table && s.table[key] < |s.slots| && s.slots[s.table[key]].content == Some(pc.result.path))
  }

  predicate SlotOk(s: State, i: SlotId)
    requires i < |s.slots|
  {
    var slot := s.slots[i];
    && slot.key in s.table && s.table[slot.key] == i  // one slot per key, shared by all its callers
    && (slot.holder.Some? ==>
          && slot.holder.value < |s.calls| && UsesSlot(s.calls[slot.holder.value].pc)
          && s.calls[slot.holder.value].pc.slot == i)
    && LinksMatch(s.links, slot.key, Built(s, i))
  }

  /** `key` was linked once if its executable is there, with that path, and never otherwise. */
  predicate LinksMatch(links: seq<LinkEvent>, key: Key, built: Option<string>) {
    && LinksOf(links, key) == (if built.Some? then 1 else 0)
    && (built.Some? ==> LinkEvent(key, built.value) in links)
  }

  predicate KeyOk(s: State, k: Key) {
    if k in s.table then s.table[k] < |s.slots| && s.slots[s.table[k]].key == k else LinksOf(s.links, k) == 0
  }

  ghost predicate LinksGenuine(cfg: Config, s: State) {
    forall e :: e in s.links ==> exists f :: LinkedFor(cfg, f, e)
  }

  /** `e` is what linking the accepted fixture `f` yields. */
  predicate LinkedFor(cfg: Config, f: Fixture, e: LinkEvent) {
    cfg.nameOk(f) && e == LinkEvent(cfg.hash(f), cfg.exe(f))
  }

  ghost predicate Inv(cfg: Config, s: State) {
    && (forall c: Caller :: c < |s.calls| ==> CallOk(cfg, s, c))
    && (forall i: SlotId :: i < |s.slots| ==> SlotOk(s, i))
    && (forall k: Key :: KeyOk(s, k))
    && (s.mapHolder.Some? ==> s.mapHolder.value < |s.calls|)
    && LinksGenuine(cfg, s)
  }

  lemma FinderPreserved(cfg: Config, s: State, a: Action)
    requires Inv(cfg, s) && Enabled(s, a) && a.FindSlot?
    ensures CallOk(cfg, Apply(cfg, s, a), a.c)
  {
    assert CallOk(cfg, s, a.c);
    assert KeyOk(s, cfg.hash(s.calls[a.c].fixture));
  }

  lemma SlotUserPreserved(cfg: Config, s: State, a: Action)
    requires Inv(cfg, s) && Enabled(s, a) && !a.Arrive? && HasSlot(s.calls[a.c].pc)
    ensures CallOk(cfg, Apply(cfg, s, a), a.c)
  {
    assert CallOk(cfg, s, a.c);
    assert SlotOk(s, s.calls[a.c].pc.slot);
  }

  /** The caller that takes the step. */
  lemma MoverPreserved(cfg: Config, s: State, a: Action)
    requires Inv(cfg, s) && Enabled(s, a) && !a.Arrive?
    ensures CallOk(cfg, Apply(cfg, s, a), a.c)
  {
    if a.FindSlot? {
      FinderPreserved(cfg, s, a);
    } else if HasSlot(s.calls[a.c].pc) {
      SlotUserPreserved(cfg, s, a);
    } else {
      assert CallOk(cfg, s, a.c);
    }
  }

  /** What caller `c` holds has not been taken from it. */
  predicate CallFramed(s: State, s': State, c: Caller)
    requires c < |s.calls|
  {
    var pc := s.calls[c].pc;
    && c < |s'.calls| && s'.calls[c] == s.calls[c]
    && (s.mapHolder == Some(c) <==> s'.mapHolder == Some(c))
    && (HasSlot(pc) && pc.slot < |s.slots| ==> pc.slot < |s'.slots| && s'.slots[pc.slot].key == s.slots[pc.slot].key)
    && (UsesSlot(pc) && pc.slot < |s.slots| ==> s'.slots[pc.slot] == s.slots[pc.slot])
  }

  /** What has been cached for `key` stays cached. */
  predicate ContentKept(s: State, s': State, key: Key) {
    key in s.table && s.table[key] < |s.slots| && s.slots[s.table[key]].content.Some? ==>
      && key in s'.table && s'.table[key] == s.table[key] && s.table[key] < |s'.slots|
      && s'.slots[s.table[key]].content == s.slots[s.table[key]].content
  }

  lemma FramedCallOk(cfg: Config, s: State, s': State, c: Caller)
    requires c < |s.calls| && CallOk(cfg, s, c)
    requires CallFramed(s, s', c) && ContentKept(s, s', cfg.hash(s.calls[c].fixture))
    ensures CallOk(cfg, s', c)
  {}

  lemma BystanderFramed(cfg: Config, s: State, a: Action, c: Caller)
    requires Inv(cfg, s) && Enabled(s, a) && c < |s.calls| && (!a.Arrive? ==> c != a.c)
    ensures CallFramed(s, Apply(cfg, s, a), c)
  {
    assert CallOk(cfg, s, c);
    if !a.Arrive? { assert CallOk(cfg, s, a.c); }
  }

  lemma StepKeepsContent(cfg: Config, s: State, a: Action, key: Key)
    requires Inv(cfg, s) && Enabled(s, a)
    ensures ContentKept(s, Apply(cfg, s, a), key)
  {
    assert KeyOk(s, key);
    if !a.Arrive? {
      assert CallOk(cfg, s, a.c);
      if HasSlot(s.calls[a.c].pc) { assert SlotOk(s, s.calls[a.c].pc.slot); }
    }
  }

  /** Everybody else: a lock the mover takes was free, and a slot it fills was its own. */
  lemma BystanderPreserved(cfg: Config, s: State, a: Action, c: Caller)
    requires Inv(cfg, s) && Enabled(s, a) && c < |s.calls| && (!a.Arrive? ==> c != a.c)
    ensures CallOk(cfg, Apply(cfg, s, a), c)
  {
    assert CallOk(cfg, s, c);
    BystanderFramed(cfg, s, a, c);
    StepKeepsContent(cfg, s, a, cfg.hash(s.calls[c].fixture));
    FramedCallOk(cfg, s, Apply(cfg, s, a), c);
  }

  lemma CallPreserved(cfg: Config, s: State, a: Action, c: Caller)
    requires Inv(cfg, s) && Enabled(s, a) && c < |Apply(cfg, s, a).calls|
    ensures CallOk(cfg, Apply(cfg, s, a), c)
  {
    if a.Arrive? && c == |s.calls| {
      assert s.mapHolder != Some(c);
    } else if !a.Arrive? && c == a.c {
      MoverPreserved(cfg, s, a);
    } else {
      BystanderPreserved(cfg, s, a, c);
    }
  }

  lemma SlotUserIsKnown(cfg: Config, s: State, c: Caller)
    requires Inv(cfg, s) && c < |s.calls| && HasSlot(s.calls[c].pc)
    ensures cfg.hash(s.calls[c].fixture) in s.table
  {
    assert CallOk(cfg, s, c) && SlotOk(s, s.calls[c].pc.slot);
  }

  lemma LinksAfter(cfg: Config, s: State, a: Action)
    requires Enabled(s, a)
    ensures Apply(cfg, s, a).links ==
            if !a.LinkOk? then s.links
            else s.links + [LinkEvent(cfg.hash(s.calls[a.c].fixture), cfg.exe(s.calls[a.c].fixture))]
  {}

  lemma UnknownKeyNotLinked(cfg: Config, s: State, a: Action, k: Key)
    requires Inv(cfg, s) && Enabled(s, a) && k !in s.table
    ensures LinksOf(Apply(cfg, s, a).links, k) == 0
  {
    assert KeyOk(s, k);
    LinksAfter(cfg, s, a);
    if a.LinkOk? {
      SlotUserIsKnown(cfg, s, a.c);
      LinksSnoc(s.links, LinkEvent(cfg.hash(s.calls[a.c].fixture), cfg.exe(s.calls[a.c].fixture)), k);
    }
  }

  lemma KeyPreserved(cfg: Config, s: State, a: Action, k: Key)
    requires Inv(cfg, s) && Enabled(s, a)
    ensures KeyOk(Apply(cfg, s, a), k)
  {
    assert KeyOk(s, k);
    if !a.Arrive? { assert CallOk(cfg, s, a.c); }
    if k !in s.table { UnknownKeyNotLinked(cfg, s, a, k); }
  }

  lemma LinksSnoc(links: seq<LinkEvent>, e: LinkEvent, k: Key)
    ensures LinksOf(links + [e], k) == LinksOf(links, k) + (if e.key == k then 1 else 0)
  {
    assert (links + [e])[..|links|] == links;
  }

  /** All that slot `i` depends on is the same in both states. */
  ghost predicate SlotFramed(s: State, s': State, i: SlotId)
    requires i < |s.slots|
  {
    var slot := s.slots[i];
    && i < |s'.slots| && s'.slots[i] == slot
    && (slot.key in s.table && s.table[slot.key] == i ==> slot.key in s'.table && s'.table[slot.key] == i)
    && (slot.holder.Some? && slot.holder.value < |s.calls| ==>
          slot.holder.value < |s'.calls| && s'.calls[slot.holder.value] == s.calls[slot.holder.value])
    && LinksOf(s'.links, slot.key) == LinksOf(s.links, slot.key)
    && (forall e :: e in s.links ==> e in s'.links)
  }

  lemma FramedSlotOk(s: State, s': State, i: SlotId)
    requires i < |s.slots| && SlotOk(s, i) && SlotFramed(s, s', i)
    ensures SlotOk(s', i)
  {
    assert Built(s', i) == Built(s, i);
  }

  lemma LinksFramed(cfg: Config, s: State, a: Action, i: SlotId)
    requires Inv(cfg, s) && Enabled(s, a) && i < |s.slots|
    requires !a.Arrive? && HasSlot(s.calls[a.c].pc) ==> i != s.calls[a.c].pc.slot
    ensures LinksOf(Apply(cfg, s, a).links, s.slots[i].key) == LinksOf(s.links, s.slots[i].key)
  {
    if a.LinkOk? {
      var f := s.calls[a.c].fixture;
      assert CallOk(cfg, s, a.c);
      assert SlotOk(s, i) && SlotOk(s, s.calls[a.c].pc.slot);
      LinksSnoc(s.links, LinkEvent(cfg.hash(f), cfg.exe(f)), s.slots[i].key);
    }
  }

  lemma HolderFramed(cfg: Config, s: State, a: Action, i: SlotId)
    requires Inv(cfg, s) && Enabled(s, a) && i < |s.slots| && s.slots[i].holder.Some?
    requires !a.Arrive? && HasSlot(s.calls[a.c].pc) ==> i != s.calls[a.c].pc.slot
    ensures var h := s.slots[i].holder.value;
            h < |s.calls| && Apply(cfg, s, a).calls[h] == s.calls[h]
  {
    assert SlotOk(s, i);
  }

  /** A slot that is not the mover's: its holder and its key's links are untouched. */
  lemma OtherSlotPreserved(cfg: Config, s: State, a: Action, i: SlotId)
    requires Inv(cfg, s) && Enabled(s, a) && i < |s.slots|
    requires !a.Arrive? && HasSlot(s.calls[a.c].pc) ==> i != s.calls[a.c].pc.slot
    ensures SlotOk(Apply(cfg, s, a), i)
  {
    assert SlotOk(s, i);
    LinksFramed(cfg, s, a, i);
    if s.slots[i].holder.Some? { HolderFramed(cfg, s, a, i); }
    assert SlotFramed(s, Apply(cfg, s, a), i);
    FramedSlotOk(s, Apply(cfg, s, a), i);
  }

  /** The slot the mover has in hand. */
  lemma OwnSlotPreserved(cfg: Config, s: State, a: Action)
    requires Inv(cfg, s) && Enabled(s, a) && !a.Arrive? && HasSlot(s.calls[a.c].pc)
    ensures s.calls[a.c].pc.slot < |s.slots| && SlotOk(Apply(cfg, s, a), s.calls[a.c].pc.slot)
  {
    assert CallOk(cfg, s, a.c);
    var i, s' := s.calls[a.c].pc.slot, Apply(cfg, s, a);
    assert SlotOk(s, i);
    if a.LinkOk? {
      var f := s.calls[a.c].fixture;
      LinksSnoc(s.links, LinkEvent(cfg.hash(f), cfg.exe(f)), s.slots[i].key);
      assert Built(s, i) == None && Built(s', i) == Some(cfg.exe(f));
    } else {
      OwnBuilt(cfg, s, a);
    }
  }

  lemma OwnBuilt(cfg: Config, s: State, a: Action)
    requires Inv(cfg, s) && Enabled(s, a) && !a.Arrive? && HasSlot(s.calls[a.c].pc) && !a.LinkOk?
    ensures s.calls[a.c].pc.slot < |s.slots|
    ensures Built(Apply(cfg, s, a), s.calls[a.c].pc.slot) == Built(s, s.calls[a.c].pc.slot)
  {
    assert CallOk(cfg, s, a.c) && SlotOk(s, s.calls[a.c].pc.slot);
  }

  lemma SlotPreserved(cfg: Config, s: State, a: Action, i: SlotId)
    requires Inv(cfg, s) && Enabled(s, a) && i < |Apply(cfg, s, a).slots|
    ensures SlotOk(Apply(cfg, s, a), i)
  {
    if i == |s.slots| {
      assert CallOk(cfg, s, a.c) && KeyOk(s, cfg.hash(s.calls[a.c].fixture));
    } else if !a.Arrive? && HasSlot(s.calls[a.c].pc) && s.calls[a.c].pc.slot == i {
      OwnSlotPreserved(cfg, s, a);
    } else {
      OtherSlotPreserved(cfg, s, a, i);
    }
  }

  lemma GenuinePreserved(cfg: Config, s: State, a: Action)
    requires LinksGenuine(cfg, s) && Enabled(s, a) && (!a.Arrive? ==> CallOk(cfg, s, a.c))
    ensures LinksGenuine(cfg, Apply(cfg, s, a))
  {
    if a.LinkOk? {
      var f := s.calls[a.c].fixture;
      var e := LinkEvent(cfg.hash(f), cfg.exe(f));
      assert LinkedFor(cfg, f, e) && Apply(cfg, s, a).links == s.links + [e];
    }
  }

  lemma StepKeepsInv(cfg: Config, s: State, a: Action)
    requires Inv(cfg, s) && Enabled(s, a)
    ensures Inv(cfg, Apply(cfg, s, a))
  {
    var s' := Apply(cfg, s, a);
    forall c: Caller | c < |s'.calls| ensures CallOk(cfg, s', c) { CallPreserved(cfg, s, a, c); }
    forall i: SlotId | i < |s'.slots| ensures SlotOk(s', i) { SlotPreserved(cfg, s, a, i); }
    forall k: Key ensures KeyOk(s', k) { KeyPreserved(cfg, s, a, k); }
    if !a.Arrive? { assert CallOk(cfg, s, a.c); }
    GenuinePreserved(cfg, s, a);
  }

  lemma {:induction false} RunKeepsInv(cfg: Config, actions: seq<Action>)
    requires Run(cfg, actions).Some?
    ensures Inv(cfg, Run(cfg, actions).value)
    decreases |actions|
  {
    if actions != [] {
      RunKeepsInv(cfg, actions[..|actions| - 1]);
      StepKeepsInv(cfg, Run(cfg, actions[..|actions| - 1]).value, actions[|actions| - 1]);
    }
  }

  // ------------------------------------------------------------------- results

  /** In every run each key is linked successfully at most once. */
  lemma LinkedAtMostOnce(cfg: Config, actions: seq<Action>, k: Key)
    requires Run(cfg, actions).Some?
    ensures LinksOf(Run(cfg, actions).value.links, k) <= 1
  {
    var s := Run(cfg, actions).value;
    RunKeepsInv(cfg, actions);
    assert KeyOk(s, k);
    if k in s.table { assert SlotOk(s, s.table[k]); }
  }

  predicate Filled(s: State, k: Key, p: string) {
    k in s.table && s.table[k] < |s.slots| && s.slots[s.table[k]].content == Some(p)
  }

  lemma FilledStays(cfg: Config, s: State, a: Action, k: Key, p: string)
    requires Inv(cfg, s) && Enabled(s, a) && Filled(s, k, p)
    ensures Filled(Apply(cfg, s, a), k, p)
    ensures LinksOf(Apply(cfg, s, a).links, k) == LinksOf(s.links, k)
  {
    assert KeyOk(s, k) && SlotOk(s, s.table[k]);
    if !a.Arrive? {
      assert CallOk(cfg, s, a.c);
      if HasSlot(s.calls[a.c].pc) { assert SlotOk(s, s.calls[a.c].pc.slot); }
      if a.LinkOk? {
        LinksSnoc(s.links, LinkEvent(cfg.hash(s.calls[a.c].fixture), cfg.exe(s.calls[a.c].fixture)), k);
      }
    }
  }

  /** Once a caller of a key has its path, the slot keeps it and no later step of any run links that key again. */
  lemma {:induction false} OkIsFinal(cfg: Config, actions: seq<Action>, more: seq<Action>, c: Caller)
    requires Run(cfg, actions + more).Some?
    requires Run(cfg, actions).Some? && c < |Run(cfg, actions).value.calls|
    requires var pc := Run(cfg, actions).value.calls[c].pc; pc.Returned? && pc.result.Path?
    ensures var s := Run(cfg, actions).value;
            var s' := Run(cfg, actions + more).value;
            var k := cfg.hash(s.calls[c].fixture);
            Filled(s', k, s.calls[c].pc.result.path) && LinksOf(s'.links, k) == 1
    decreases |more|
  {
    var s := Run(cfg, actions).value;
    var k := cfg.hash(s.calls[c].fixture);
    var all := actions + more;
    if more == [] {
      assert all == actions;
      RunKeepsInv(cfg, actions);
      assert CallOk(cfg, s, c) && KeyOk(s, k) && SlotOk(s, s.table[k]);
    } else {
      var shorter := actions + more[..|more| - 1];
      assert all[..|all| - 1] == shorter;
      OkIsFinal(cfg, actions, more[..|more| - 1], c);
      RunKeepsInv(cfg, shorter);
      FilledStays(cfg, Run(cfg, shorter).value, all[|all| - 1], k, s.calls[c].pc.result.path);
    }
  }

  /**
   * A returned path was linked for an accepted fixture with the caller's key, hence for the
   * caller's own when the hash does not collide.
   */
  lemma PathIsGenuine(cfg: Config, actions: seq<Action>, c: Caller)
    requires Run(cfg, actions).Some? && c < |Run(cfg, actions).value.calls|
    requires var pc := Run(cfg, actions).value.calls[c].pc; pc.Returned? && pc.result.Path?
    ensures var call := Run(cfg, actions).value.calls[c];
            var e := LinkEvent(cfg.hash(call.fixture), call.pc.result.path);
            && (exists f :: LinkedFor(cfg, f, e))
            && ((forall f :: cfg.hash(f) == e.key ==> f == call.fixture) ==> LinkedFor(cfg, call.fixture, e))
  {
    var s := Run(cfg, actions).value;
    RunKeepsInv(cfg, actions);
    var k := cfg.hash(s.calls[c].fixture);
    assert CallOk(cfg, s, c) && KeyOk(s, k) && SlotOk(s, s.table[k]);
    assert LinkEvent(k, s.calls[c].pc.result.path) in s.links;
  }

  /** A refused or panicked attempt leaves its slot empty and free, so the next caller of the key compiles again. */
  lemma FailureLeavesSlotRetryable(cfg: Config, s: State, a: Action)
    requires Inv(cfg, s) && Enabled(s, a) && (a.Refuse? || a.Panic?)
    ensures var id := s.calls[a.c].pc.slot;
            var s' := Apply(cfg, s, a);
            && s'.slots[id].content.None? && s'.slots[id].holder.None?
            && s'.slots[id].poisoned == (s.slots[id].poisoned || a.Panic?)
            && s'.table == s.table && s'.links == s.links
            && forall c :: 0 <= c < |s'.calls| && s'.calls[c].pc == WantsSlot(id) ==>
                 && Enabled(s', LockSlot(c))
                 && Apply(cfg, Apply(cfg, s', LockSlot(c)), ReadSlot(c)).calls[c].pc == Compiling(id)
  {
    assert CallOk(cfg, s, a.c);
  }

  // ------------------------------------------------------------ what a call returns

  /** Caller `c`, about to read its slot, would find `p` there. */
  predicate Sees(s: State, c: Caller, p: string) {
    && c < |s.calls| && HasSlot(s.calls[c].pc) && s.calls[c].pc.slot < |s.slots|
    && s.slots[s.calls[c].pc.slot].content == Some(p)
  }

  /** At some point of the run `c` read its slot and found `p`. */
  ghost predicate Found(cfg: Config, actions: seq<Action>, c: Caller, p: string) {
    exists i: nat :: i < |actions| && actions[i] == ReadSlot(c) && FoundAt(cfg, actions, c, p, i)
  }

  predicate FoundAt(cfg: Config, actions: seq<Action>, c: Caller, p: string, i: nat) {
    i < |actions| && Run(cfg, actions[..i]).Some? && Sees(Run(cfg, actions[..i]).value, c, p)
  }

  lemma FoundSnoc(cfg: Config, before: seq<Action>, a: Action, c: Caller, p: string)
    requires Run(cfg, before).Some?
    ensures Found(cfg, before + [a], c, p) <==>
            Found(cfg, before, c, p) || (a == ReadSlot(c) && Sees(Run(cfg, before).value, c, p))
  {
    var all := before + [a];
    assert all[..|before|] == before;
    forall i: nat | i < |before| ensures FoundAt(cfg, all, c, p, i) == FoundAt(cfg, before, c, p, i) {
      assert all[..i] == before[..i];
    }
    if Found(cfg, before, c, p) {
      var i: nat :| i < |before| && before[i] == ReadSlot(c) && FoundAt(cfg, before, c, p, i);
      assert all[i] == ReadSlot(c);
    }
    if a == ReadSlot(c) && Sees(Run(cfg, before).value, c, p) { assert FoundAt(cfg, all, c, p, |before|); }
  }

  /** Where a call stands, by the steps its caller has taken. */
  predicate Course(cfg: Config, actions: seq<Action>, call: Call, c: Caller) {
    var own := Path(cfg.exe(call.fixture));
    && (call.pc.Called? <==> CheckName(c) !in actions)
    && (!call.pc.Called? ==> cfg.nameOk(call.fixture) || call.pc == Returned(Panicked))
    && (call.pc.Linked? ==> LinkOk(c) in actions)
    && (call.pc.Linking? || LinkOk(c) in actions ==> CompileOk(c) in actions)
    && (LinkOk(c) in actions ==> (call.pc.Linked? && Path(call.pc.path) == own) || call.pc == Returned(own))
    && (Refuse(c) in actions <==> call.pc == Returned(Refused))
    && (Panic(c) in actions || (CheckName(c) in actions && !cfg.nameOk(call.fixture)) <==>
       call.pc == Returned(Panicked))
  }

  /** Where it stands by what it has found. */
  ghost predicate Finds(cfg: Config, actions: seq<Action>, call: Call, c: Caller) {
    && (call.pc.Returned? && call.pc.result.Path? ==>
       LinkOk(c) in actions || Found(cfg, actions, c, call.pc.result.path))
    && (forall p :: Found(cfg, actions, c, p) ==> call.pc == Returned(Path(p)))
  }

  ghost predicate Fate(cfg: Config, actions: seq<Action>, call: Call, c: Caller) {
    Course(cfg, actions, call, c) && Finds(cfg, actions, call, c)
  }

  lemma CallsAfter(cfg: Config, s: State, a: Action)
    requires Enabled(s, a)
    ensures |Apply(cfg, s, a).calls| >= |s.calls|
  {}

  lemma {:induction false} ActorsArrived(cfg: Config, actions: seq<Action>)
    requires Run(cfg, actions).Some?
    ensures forall a :: a in actions && !a.Arrive? ==> a.c < |Run(cfg, actions).value.calls|
    decreases |actions|
  {
    if actions != [] {
      var before, last := actions[..|actions| - 1], actions[|actions| - 1];
      ActorsArrived(cfg, before);
      CallsAfter(cfg, Run(cfg, before).value, last);
      assert actions == before + [last];
    }
  }

  /** The steps of others change nothing in it. */
  lemma FateKept(cfg: Config, before: seq<Action>, a: Action, call: Call, c: Caller)
    requires Run(cfg, before).Some? && Fate(cfg, before, call, c) && (!a.Arrive? ==> a.c != c)
    ensures Fate(cfg, before + [a], call, c)
  {
    forall p ensures Found(cfg, before + [a], c, p) <==> Found(cfg, before, c, p) { FoundSnoc(cfg, before, a, c, p); }
  }

  lemma OwnStepCourse(cfg: Config, before: seq<Action>, s: State, a: Action, c: Caller)
    requires Enabled(s, a) && !a.Arrive? && a.c == c && Course(cfg, before, s.calls[c], c)
    ensures Course(cfg, before + [a], Apply(cfg, s, a).calls[c], c)
  {}

  lemma OwnStepFinds(cfg: Config, before: seq<Action>, a: Action, c: Caller)
    requires Run(cfg, before).Some? && Enabled(Run(cfg, before).value, a) && !a.Arrive? && a.c == c
    requires Fate(cfg, before, Run(cfg, before).value.calls[c], c)
    ensures Finds(cfg, before + [a], Apply(cfg, Run(cfg, before).value, a).calls[c], c)
  {
    forall p
      ensures Found(cfg, before + [a], c, p) <==>
              Found(cfg, before, c, p) || (a == ReadSlot(c) && Sees(Run(cfg, before).value, c, p))
    {
      FoundSnoc(cfg, before, a, c, p);
    }
  }

  lemma NewcomerFate(cfg: Config, before: seq<Action>, f: Fixture, c: Caller)
    requires Run(cfg, before).Some? && c == |Run(cfg, before).value.calls|
    ensures Fate(cfg, before + [Arrive(f)], Call(f, Called), c)
  {
    ActorsArrived(cfg, before);
    assert ReadSlot(c) !in before + [Arrive(f)];
    assert forall p :: !Found(cfg, before + [Arrive(f)], c, p);
  }

  lemma StepFate(cfg: Config, before: seq<Action>, a: Action, c: Caller)
    requires Run(cfg, before).Some? && Enabled(Run(cfg, before).value, a)
    requires c < |Apply(cfg, Run(cfg, before).value, a).calls|
    requires c < |Run(cfg, before).value.calls| ==> Fate(cfg, before, Run(cfg, before).value.calls[c], c)
    ensures Fate(cfg, before + [a], Apply(cfg, Run(cfg, before).value, a).calls[c], c)
  {
    var s := Run(cfg, before).value;
    if c == |s.calls| {
      NewcomerFate(cfg, before, a.fixture, c);
    } else if a.Arrive? || a.c != c {
      FateKept(cfg, before, a, s.calls[c], c);
    } else {
      OwnStepCourse(cfg, before, s, a, c);
      OwnStepFinds(cfg, before, a, c);
    }
  }

  lemma {:induction false} RunFate(cfg: Config, actions: seq<Action>, c: Caller)
    requires Run(cfg, actions).Some? && c < |Run(cfg, actions).value.calls|
    ensures Fate(cfg, actions, Run(cfg, actions).value.calls[c], c)
    decreases |actions|
  {
    var before, a := actions[..|actions| - 1], actions[|actions| - 1];
    var s := Run(cfg, before).value;
    assert actions == before + [a];
    if c < |s.calls| { RunFate(cfg, before, c); }
    StepFate(cfg, before, a, c);
  }

  /**
   * A call returns what its own steps led to: the path it linked, the path it found,
   * a refusal after its own refusal, a panic after its own panic or for a bad name.
   */
  lemma ReturnsByOwnSteps(cfg: Config, actions: seq<Action>, c: Caller)
    requires Run(cfg, actions).Some? && c < |Run(cfg, actions).value.calls|
    requires Run(cfg, actions).value.calls[c].pc.Returned?
    ensures var call := Run(cfg, actions).value.calls[c];
            && (LinkOk(c) in actions ==> CompileOk(c) in actions && call.pc.result == Path(cfg.exe(call.fixture)))
            && (forall p :: Found(cfg, actions, c, p) ==> call.pc.result == Path(p))
            && (call.pc.result.Path? ==> LinkOk(c) in actions || Found(cfg, actions, c, call.pc.result.path))
            && (call.pc.result == Refused <==> Refuse(c) in actions)
            && (call.pc.result == Panicked <==> Panic(c) in actions || !cfg.nameOk(call.fixture))
  {
    RunFate(cfg, actions, c);
  }

  // --------------------------------------------------------------------- poison

  /** Some panic in the run happened while its caller held slot `i`'s lock. */
  ghost predicate PanickedIn(cfg: Config, actions: seq<Action>, i: SlotId) {
    exists k: nat :: k < |actions| && actions[k].Panic? && PanicAt(cfg, actions, i, k)
  }

  predicate PanicAt(cfg: Config, actions: seq<Action>, i: SlotId, k: nat) {
    && k < |actions| && actions[k].Panic? && Run(cfg, actions[..k]).Some?
    && actions[k].c < |Run(cfg, actions[..k]).value.calls|
    && UsesSlot(Run(cfg, actions[..k]).value.calls[actions[k].c].pc)
    && Run(cfg, actions[..k]).value.calls[actions[k].c].pc.slot == i
  }

  lemma SlotInUseIsThere(cfg: Config, s: State, c: Caller)
    requires Inv(cfg, s) && c < |s.calls| && UsesSlot(s.calls[c].pc)
    ensures s.calls[c].pc.slot < |s.slots|
  {
    assert CallOk(cfg, s, c);
  }

  lemma PanickedSnoc(cfg: Config, before: seq<Action>, a: Action, i: SlotId)
    requires Run(cfg, before).Some? && Enabled(Run(cfg, before).value, a)
    ensures var s := Run(cfg, before).value;
            PanickedIn(cfg, before + [a], i) <==>
            PanickedIn(cfg, before, i) || (a.Panic? && UsesSlot(s.calls[a.c].pc) && s.calls[a.c].pc.slot == i)
  {
    var all := before + [a];
    assert all[..|before|] == before;
    forall k: nat | k < |before| ensures PanicAt(cfg, all, i, k) == PanicAt(cfg, before, i, k) {
      assert all[..k] == before[..k] && all[k] == before[k];
    }
    if PanickedIn(cfg, before, i) {
      var k: nat :| k < |before| && before[k].Panic? && PanicAt(cfg, before, i, k);
      assert all[k].Panic? && PanicAt(cfg, all, i, k);
    }
    assert PanickedIn(cfg, all, i) <==> PanickedIn(cfg, before, i) || PanicAt(cfg, all, i, |before|);
  }

  lemma PoisonStep(s: State, cfg: Config, a: Action, i: SlotId)
    requires Enabled(s, a) && i < |Apply(cfg, s, a).slots|
    ensures Apply(cfg, s, a).slots[i].poisoned <==>
            (i < |s.slots| && s.slots[i].poisoned)
                || (a.Panic? && UsesSlot(s.calls[a.c].pc) && s.calls[a.c].pc.slot == i)
  {}

  /** A lock is poisoned exactly by a panic under it, and for good; no step is disabled by that. */
  lemma {:induction false} PoisonedIffPanicked(cfg: Config, actions: seq<Action>, i: SlotId)
    requires Run(cfg, actions).Some? && i < |Run(cfg, actions).value.slots|
    ensures Run(cfg, actions).value.slots[i].poisoned <==> PanickedIn(cfg, actions, i)
    decreases |actions|
  {
    var before, a := actions[..|actions| - 1], actions[|actions| - 1];
    var s := Run(cfg, before).value;
    assert actions == before + [a];
    PanickedSnoc(cfg, before, a, i);
    PoisonStep(s, cfg, a, i);
    if i < |s.slots| { PoisonedIffPanicked(cfg, before, i); } else { SlotsOnlyGrow(cfg, before, i); }
  }

  lemma SlotsAfter(cfg: Config, s: State, a: Action)
    requires Enabled(s, a)
    ensures |Apply(cfg, s, a).slots| >= |s.slots|
  {}

  /** A slot that is not there has not been panicked in. */
  lemma {:induction false} SlotsOnlyGrow(cfg: Config, actions: seq<Action>, i: SlotId)
    requires Run(cfg, actions).Some? && i >= |Run(cfg, actions).value.slots|
    ensures !PanickedIn(cfg, actions, i)
    decreases |actions|
  {
    if actions != [] {
      var before, a := actions[..|actions| - 1], actions[|actions| - 1];
      var s := Run(cfg, before).value;
      assert actions == before + [a];
      SlotsAfter(cfg, s, a);
      SlotsOnlyGrow(cfg, before, i);
      PanickedSnoc(cfg, before, a, i);
      if a.Panic? {
        RunKeepsInv(cfg, before);
        SlotInUseIsThere(cfg, s, a.c);
      }
    }
  }

  // ------------------------------------------------------------------- progress

  /** What a caller does next, by where it stands: compiling and linking succeed, refuse or panic. */
  function StepsAt(pc: Pc, c: Caller): set<Action> {
    match pc
    case Called => {CheckName(c)}
    case WantsMap => {LockMap(c)}
    case HoldsMap => {FindSlot(c)}
    case HoldsEntry(_) => {UnlockMap(c)}
    case WantsSlot(_) => {LockSlot(c)}
    case HoldsSlot(_) => {ReadSlot(c)}
    case Compiling(_) => {CompileOk(c), Refuse(c), Panic(c)}
    case Linking(_) => {LinkOk(c), Refuse(c), Panic(c)}
    case Linked(_, _) => {Fill(c)}
    case Returned(_) => {}
  }

  /** In every reachable state a caller can take exactly these steps, but a lock only while it is free. */
  lemma EnabledSteps(cfg: Config, s: State, a: Action)
    requires Inv(cfg, s) && !a.Arrive? && a.c < |s.calls|
    ensures Enabled(s, a) <==>
            && a in StepsAt(s.calls[a.c].pc, a.c)
            && (a.LockMap? ==> s.mapHolder.None?)
            && (a.LockSlot? ==>
                  s.calls[a.c].pc.slot < |s.slots| && s.slots[s.calls[a.c].pc.slot].holder.None?)
  {
    assert CallOk(cfg, s, a.c);
  }

  /** Steps a call still has before it, at most. */
  function Remaining(pc: Pc): nat {
    match pc
    case Called => 9
    case WantsMap => 8
    case HoldsMap => 7
    case HoldsEntry(_) => 6
    case WantsSlot(_) => 5
    case HoldsSlot(_) => 4
    case Compiling(_) => 3
    case Linking(_) => 2
    case Linked(_, _) => 1
    case Returned(_) => 0
  }

  function TotalRemaining(calls: seq<Call>): nat {
    if calls == [] then 0 else TotalRemaining(calls[..|calls| - 1]) + Remaining(calls[|calls| - 1].pc)
  }

  lemma {:induction false} TotalDrops(calls: seq<Call>, calls': seq<Call>, c: Caller)
    requires c < |calls| == |calls'| && Remaining(calls'[c].pc) < Remaining(calls[c].pc)
    requires forall i :: 0 <= i < |calls| && i != c ==> calls'[i] == calls[i]
    ensures TotalRemaining(calls') < TotalRemaining(calls)
    decreases |calls|
  {
    var n := |calls| - 1;
    if c < n {
      TotalDrops(calls[..n], calls'[..n], c);
    } else {
      assert calls[..n] == calls'[..n];
    }
  }

  /** Every step other than a new arrival brings the callers closer to returning: no run of theirs is endless. */
  lemma StepsRunOut(cfg: Config, s: State, a: Action)
    requires Enabled(s, a) && !a.Arrive?
    ensures TotalRemaining(Apply(cfg, s, a).calls) < TotalRemaining(s.calls)
  {
    TotalDrops(s.calls, Apply(cfg, s, a).calls, a.c);
  }

  function NextAction(s: State, c: Caller): Action
    requires c < |s.calls| && !s.calls[c].pc.Returned?
  {
    match s.calls[c].pc
    case Called => CheckName(c)
    case WantsMap => LockMap(c)
    case HoldsMap => FindSlot(c)
    case HoldsEntry(_) => UnlockMap(c)
    case WantsSlot(_) => LockSlot(c)
    case HoldsSlot(_) => ReadSlot(c)
    case Compiling(_) => CompileOk(c)
    case Linking(_) => LinkOk(c)
    case Linked(_, _) => Fill(c)
  }

  /** No deadlock: while some caller has not returned, some caller can take a step. */
  lemma NoDeadlock(cfg: Config, actions: seq<Action>, c: Caller)
    requires Run(cfg, actions).Some? && c < |Run(cfg, actions).value.calls|
    requires !Run(cfg, actions).value.calls[c].pc.Returned?
    ensures exists a: Action :: !a.Arrive? && Enabled(Run(cfg, actions).value, a)
  {
    var s := Run(cfg, actions).value;
    RunKeepsInv(cfg, actions);
    assert CallOk(cfg, s, c);
    var pc := s.calls[c].pc;
    // whoever blocks `c` holds a lock and can itself move
    var mover :=
      if pc.WantsMap? && s.mapHolder.Some? then s.mapHolder.value
      else if pc.WantsSlot? && s.slots[pc.slot].holder.Some? then s.slots[pc.slot].holder.value
      else c;
    if pc.WantsSlot? { assert SlotOk(s, pc.slot); }
    assert CallOk(cfg, s, mover);
    var a := NextAction(s, mover);
    assert !a.Arrive? && Enabled(s, a);
  }
}
