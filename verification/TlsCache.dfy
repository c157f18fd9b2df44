/** The two-level cache of winning TLS profiles (src/msgate/tls/cache.py), for one store path. */
module TlsCaching {
  import opened TlsProfiles

  /** What the two levels hold: profile ids as text, as in the file. */
  datatype Levels = Levels(memory: map<string, string>, disk: map<string, string>)

  /** `Corrupt` stands for the ValueError of an entry that is not a profile id. */
  datatype Lookup = Hit(profile: ProfileId) | Miss | Corrupt

  function AsProfile(text: string): Lookup {
    if ParseProfile(text).Some? then Hit(ParseProfile(text).value) else Corrupt
  }

  // ----- the plain map -----

  /** What the cache speeds up: one map, where an empty entry counts as none. */
  function PlainGet(entries: map<string, string>, key: string): Lookup {
    if key in entries && entries[key] != "" then AsProfile(entries[key]) else Miss
  }

  // ----- the two levels -----

  /** Memory only repeats what is on disk. */
  ghost predicate Coherent(l: Levels) {
    forall k :: k in l.memory ==> k in l.disk && l.disk[k] == l.memory[k] && l.memory[k] != ""
  }

  function GetLevels(l: Levels, key: string): Levels {
    if key !in l.memory && key in l.disk && l.disk[key] != "" then l.(memory := l.memory[key := l.disk[key]]) else l
  }

  function GetResult(l: Levels, key: string): Lookup {
    if key in l.memory then AsProfile(l.memory[key])
    else if key in l.disk && l.disk[key] != "" then AsProfile(l.disk[key])
    else Miss
  }

  /** Storing; when writing the file fails, memory has changed all the same. */
  function PutLevels(l: Levels, key: string, profile: ProfileId, saved: bool): Levels {
    Levels(l.memory[key := ProfileText(profile)], if saved then l.disk[key := ProfileText(profile)] else l.disk)
  }

  function DropLevels(l: Levels, key: string, saved: bool): Levels {
    Levels(l.memory - {key}, if saved then l.disk - {key} else l.disk)
  }

  // ----- runs -----

  datatype Op = Get(key: string) | Put(key: string, profile: ProfileId, saved: bool) | Invalidate(key: string, saved: bool) | ClearMemory

  /** What a caller sees of an operation; a failed write is an exception. */
  datatype Seen = Found(lookup: Lookup) | Done | WriteFailed

  function Step(l: Levels, op: Op): Levels {
    match op
    case Get(key) => GetLevels(l, key)
    case Put(key, profile, saved) => PutLevels(l, key, profile, saved)
    case Invalidate(key, saved) => if key in l.disk then DropLevels(l, key, saved) else DropLevels(l, key, true)
    case ClearMemory => l.(memory := map[])
  }

  function See(l: Levels, op: Op): Seen {
    match op
    case Get(key) => Found(GetResult(l, key))
    case Put(_, _, saved) => if saved then Done else WriteFailed
    case Invalidate(key, saved) => if saved || key !in l.disk then Done else WriteFailed
    case ClearMemory => Done
  }

  /** The same operations on the plain map: looking and clearing the memory change nothing. */
  function PlainStep(entries: map<string, string>, op: Op): map<string, string> {
    match op
    case Get(_) => entries
    case Put(key, profile, saved) => if saved then entries[key := ProfileText(profile)] else entries
    case Invalidate(key, saved) => if saved then entries - {key} else entries
    case ClearMemory => entries
  }

  function PlainSee(entries: map<string, string>, op: Op): Seen {
    match op
    case Get(key) => Found(PlainGet(entries, key))
    case Put(_, _, saved) => if saved then Done else WriteFailed
    case Invalidate(key, saved) => if saved || key !in entries then Done else WriteFailed
    case ClearMemory => Done
  }

  function After(l: Levels, ops: seq<Op>): Levels
    decreases |ops|
  {
    if ops == [] then l else After(Step(l, ops[0]), ops[1..])
  }

  function SeenBy(l: Levels, ops: seq<Op>): seq<Seen>
    decreases |ops|
  {
    if ops == [] then [] else [See(l, ops[0])] + SeenBy(Step(l, ops[0]), ops[1..])
  }

  function PlainAfter(entries: map<string, string>, ops: seq<Op>): map<string, string>
    decreases |ops|
  {
    if ops == [] then entries else PlainAfter(PlainStep(entries, ops[0]), ops[1..])
  }

  function PlainSeenBy(entries: map<string, string>, ops: seq<Op>): seq<Seen>
    decreases |ops|
  {
    if ops == [] then [] else [PlainSee(entries, ops[0])] + PlainSeenBy(PlainStep(entries, ops[0]), ops[1..])
  }

  predicate PutsSaved(ops: seq<Op>) {
    forall i :: 0 <= i < |ops| ==> ops[i].Put? ==> ops[i].saved
  }

  lemma StepIsPlain(l: Levels, op: Op)
    requires Coherent(l) && (op.Put? ==> op.saved)
    ensures Coherent(Step(l, op)) && Step(l, op).disk == PlainStep(l.disk, op) && See(l, op) == PlainSee(l.disk, op)
  {
  }

  /** The two levels behave as one plain map in every sequence of operations whose stores reach the disk. */
  lemma {:induction false} CacheRefinesMap(l: Levels, ops: seq<Op>)
    requires Coherent(l) && PutsSaved(ops)
    ensures SeenBy(l, ops) == PlainSeenBy(l.disk, ops)
    ensures After(l, ops).disk == PlainAfter(l.disk, ops) && Coherent(After(l, ops))
    decreases |ops|
  {
    if ops != [] {
      StepIsPlain(l, ops[0]);
      assert forall i :: 0 <= i < |ops[1..]| ==> ops[1..][i] == ops[i + 1];
      CacheRefinesMap(Step(l, ops[0]), ops[1..]);
    }
  }

  /** Looking something up or clearing the memory is invisible to everything that comes later. */
  lemma LookingIsInvisible(l: Levels, before: seq<Op>, op: Op, later: seq<Op>)
    requires Coherent(l) && PutsSaved(before) && PutsSaved(later) && (op.Get? || op.ClearMemory?)
    ensures SeenBy(Step(After(l, before), op), later) == SeenBy(After(l, before), later)
  {
    CacheRefinesMap(l, before);
    var m := After(l, before);
    StepIsPlain(m, op);
    CacheRefinesMap(m, later);
    CacheRefinesMap(Step(m, op), later);
  }

  /** In all sequences from an empty cache, those with (or only those without) stores whose write fails. */
  ghost predicate AlwaysPlain(failures: bool) {
    forall ops :: (failures || PutsSaved(ops)) ==> SeenBy(Levels(map[], map[]), ops) == PlainSeenBy(map[], ops)
  }

  /** A failed store is remembered until the memory is cleared, so the refinement is exactly as good as the writes. */
  lemma AlwaysPlainIff(failures: bool)
    ensures AlwaysPlain(failures) <==> !failures
  {
    if failures {
      var put, get := Put("k", ModernTls, false), Get("k");
      var ops, l := [put, get], Levels(map[], map[]);
      assert ops[1..] == [get] && [get][1..] == [];
      var l1 := Step(l, put);
      ProfileReadsBack(ModernTls);
      assert See(l1, get) == Found(Hit(ModernTls));
      assert SeenBy(l1, [get]) == [See(l1, get)];
      assert PlainStep(map[], put) == map[];
      assert PlainSeenBy(map[], [get]) == [Found(Miss)];
      assert SeenBy(l, ops) == [WriteFailed, Found(Hit(ModernTls))];
      assert PlainSeenBy(map[], ops) == [WriteFailed, Found(Miss)];
      assert SeenBy(l, ops)[1] != PlainSeenBy(map[], ops)[1];
    } else {
      forall ops | PutsSaved(ops) ensures SeenBy(Levels(map[], map[]), ops) == PlainSeenBy(map[], ops) {
        CacheRefinesMap(Levels(map[], map[]), ops);
      }
    }
  }

  /** Every entry in memory reads as the disk would. */
  ghost predicate ReadsAlike(l: Levels) {
    forall k :: k in l.memory ==> AsProfile(l.memory[k]) == PlainGet(l.disk, k)
  }

  lemma StepKeepsReadingAlike(l: Levels, op: Op)
    requires ReadsAlike(l) && (op.Put? ==> op.saved)
    ensures ReadsAlike(Step(l, op)) && Step(l, op).disk == PlainStep(l.disk, op) && See(l, op) == PlainSee(l.disk, op)
  {
    if op.Put? {
      ProfileReadsBack(op.profile);
    }
  }

  lemma {:induction false} ReadingAlikeIsPlain(l: Levels, ops: seq<Op>)
    requires ReadsAlike(l) && PutsSaved(ops)
    ensures SeenBy(l, ops) == PlainSeenBy(l.disk, ops)
    decreases |ops|
  {
    if ops != [] {
      StepKeepsReadingAlike(l, ops[0]);
      assert forall i :: 0 <= i < |ops[1..]| ==> ops[1..][i] == ops[i + 1];
      ReadingAlikeIsPlain(Step(l, ops[0]), ops[1..]);
    }
  }

  /**
   After whatever has happened to the two levels, failed writes included: everything seen later is what the plain map on
   the disk would show, as long as the later stores reach it, if and only if every entry in memory reads as the disk does.
   A failed store that repeats what is on the disk is harmless.
   */
  lemma PlainFromHereIff(l: Levels)
    ensures (forall ops :: PutsSaved(ops) ==> SeenBy(l, ops) == PlainSeenBy(l.disk, ops)) <==> ReadsAlike(l)
  {
    if ReadsAlike(l) {
      forall ops | PutsSaved(ops) ensures SeenBy(l, ops) == PlainSeenBy(l.disk, ops) {
        ReadingAlikeIsPlain(l, ops);
      }
    } else {
      var k :| k in l.memory && AsProfile(l.memory[k]) != PlainGet(l.disk, k);
      var ops := [Get(k)];
      assert ops[1..] == [];
      assert SeenBy(l, ops) == [Found(AsProfile(l.memory[k]))];
      assert PlainSeenBy(l.disk, ops) == [Found(PlainGet(l.disk, k))];
      assert SeenBy(l, ops)[0] != PlainSeenBy(l.disk, ops)[0];
      assert PutsSaved(ops);
    }
  }

  // ----- the object -----

  class TlsCache {
    var memory: map<string, string>
    var disk: map<string, string>

    ghost function View(): Levels
      reads this
    {
      Levels(memory, disk)
    }

    constructor (stored: map<string, string>)
      ensures View() == Levels(map[], stored)
    {
      memory, disk := map[], stored;
    }

    method GetCached(key: string) returns (r: Lookup)
      modifies this`memory
      ensures r == GetResult(old(View()), key) && View() == GetLevels(old(View()), key)
      ensures old(Coherent(View())) ==> r == PlainGet(disk, key) && Coherent(View())
    {
      if key in memory {
        return AsProfile(memory[key]);
      }
      if key in disk && disk[key] != "" {
        memory := memory[key := disk[key]];
        return AsProfile(disk[key]);
      }
      return Miss;
    }

    method PutCached(key: string, profile: ProfileId, saved: bool)
      modifies this
      ensures View() == PutLevels(old(View()), key, profile, saved)
    {
      memory := memory[key := ProfileText(profile)];
      if saved {
        disk := disk[key := ProfileText(profile)];
      }
    }

    /** `dropped` is false when the file had to be written and was not, which is an exception. */
    method Forget(key: string, saved: bool) returns (dropped: bool)
      modifies this
      ensures View() == Step(old(View()), Invalidate(key, saved))
      ensures See(old(View()), Invalidate(key, saved)) == if dropped then Done else WriteFailed
    {
      dropped := saved || key !in disk;
      memory := memory - {key};
      if key in disk && saved {
        disk := disk - {key};
      }
      assert key !in disk ==> disk - {key} == disk;
    }

    method DropMemory()
      modifies this`memory
      ensures View() == old(View()).(memory := map[])
    {
      memory := map[];
    }
  }
}
