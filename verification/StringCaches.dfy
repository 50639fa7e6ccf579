/** The string tables of one storage and the per-thread caches in front of them
    (rpd_tracer/StringTable.cpp:135-180, rpd_tracer/UStringTable.cpp:135-170,
    rpd_tracer/LocalStringCache.h:12-62, rpd_tracer/UStringCache.h:16-91).
    A storage reset makes a new table under a larger generation number. */
module StringCaches {
  import opened Sequences
  import opened Wrappers

  const EMPTY_STRING_ID: int := 1

  // ---- the deduplicating table -----------------------------------------

  /** Position of a text, or the length when it is new. */
  function Find(texts: seq<string>, key: string): (k: nat)
    ensures k <= |texts| && (k < |texts| ==> texts[k] == key)
    ensures k == |texts| <==> key !in texts
  {
    if texts == [] then 0 else if texts[0] == key then 0 else 1 + Find(texts[1..], key)
  }

  function IdOf(texts: seq<string>, key: string): int {
    Find(texts, key) + 1
  }

  /** The table after getOrCreate(key). */
  function With(texts: seq<string>, key: string): seq<string> {
    if key in texts then texts else texts + [key]
  }

  ghost predicate Distinct(texts: seq<string>) {
    forall i, j :: 0 <= i < j < |texts| ==> texts[i] != texts[j]
  }

  lemma {:induction false} FindGrows(texts: seq<string>, more: seq<string>, key: string)
    requires key in texts
    ensures Find(texts + more, key) == Find(texts, key)
  {
    if texts[0] != key {
      assert (texts + more)[1..] == texts[1..] + more;
      FindGrows(texts[1..], more, key);
    }
  }

  /** An id once given stays the text's id. */
  lemma IdStays(texts: seq<string>, key: string, other: string)
    requires key in texts
    ensures IdOf(With(texts, other), key) == IdOf(texts, key) && key in With(texts, other)
  {
    if other !in texts {
      FindGrows(texts, [other], key);
    }
  }

  class StringTable {
    var cache: map<string, int>
    var texts: seq<string>   // row id k holds texts[k - 1]

    ghost predicate Valid()
      reads this
    {
      && Distinct(texts)
      && (forall key :: key in cache <==> key in texts)
      && (forall key :: key in cache ==> cache[key] == IdOf(texts, key))
    }

    constructor ()
      ensures Valid() && texts == [""]
    {
      cache, texts := map["" := 1], [""];
    }

    method GetOrCreate(key: string) returns (id: int)
      requires Valid()
      modifies this
      ensures Valid() && texts == With(old(texts), key) && id == IdOf(texts, key) && key in texts
    {
      hide Find;
      if key in cache {
        return cache[key];
      }
      forall k | k in cache ensures IdOf(texts + [key], k) == cache[k] {
        FindGrows(texts, [key], k);
      }
      NewIsLast(texts, key);
      texts := texts + [key];
      id := |texts|;
      cache := cache[key := id];
    }
  }

  lemma {:induction false} NewIsLast(texts: seq<string>, key: string)
    requires key !in texts
    ensures Find(texts + [key], key) == |texts|
  {
    if texts != [] {
      assert (texts + [key])[1..] == texts[1..] + [key];
      NewIsLast(texts[1..], key);
    }
  }

  // ---- the cache in front of it ----------------------------------------

  datatype Entry = Entry(ptr: nat, content: string, id: int, generation: int)

  class LocalStringCache {
    const CAPACITY: nat
    const entries: array<Entry>
    var count: nat
    var writeIdx: nat

    /** Entries of the current generation name the table's id of their text;
        older ones may be stale.  No text is cached twice. */
    ghost predicate Valid(texts: seq<string>, gen: int)
      reads this, entries
    {
      && CAPACITY > 0 && entries.Length == CAPACITY && count <= CAPACITY && writeIdx < CAPACITY
      && (forall i, j :: 0 <= i < j < count ==> entries[i].content != entries[j].content)
      && forall i :: 0 <= i < count ==>
           var e := entries[i];
           e.generation <= gen && (e.generation == gen ==> e.content in texts && e.id == IdOf(texts, e.content))
    }

    constructor (capacity: nat)
      requires capacity > 0
      ensures CAPACITY == capacity && count == 0 && fresh(entries)
      ensures forall texts, gen :: Valid(texts, gen)
    {
      CAPACITY := capacity;
      entries := new Entry[capacity](_ => Entry(0, "", 0, 0));
      count, writeIdx := 0, 0;
    }

    /** Another thread may add texts between two lookups. */
    lemma StillValid(texts: seq<string>, other: string, gen: int)
      requires Valid(texts, gen)
      ensures Valid(With(texts, other), gen)
    {
      forall i | 0 <= i < count && entries[i].generation == gen
        ensures entries[i].content in With(texts, other)
        ensures entries[i].id == IdOf(With(texts, other), entries[i].content)
      {
        IdStays(texts, entries[i].content, other);
      }
    }

    /** After a storage reset every entry is of an older generation. */
    lemma ValidAfterReset(texts: seq<string>, gen: int, newTexts: seq<string>, newGen: int)
      requires Valid(texts, gen) && gen < newGen
      ensures Valid(newTexts, newGen)
    {
    }

    /** A hit: refresh the id when the storage changed. */
    method Refresh(i: nat, table: StringTable, gen: int) returns (id: int)
      requires table.Valid() && Valid(table.texts, gen) && i < count
      modifies table, entries
      ensures table.Valid() && table.texts == With(old(table.texts), old(entries[i].content))
      ensures Valid(table.texts, gen) && id == IdOf(table.texts, old(entries[i].content))
    {
      StillValid(table.texts, entries[i].content, gen);
      if entries[i].generation != gen {
        var newId := table.GetOrCreate(entries[i].content);
        entries[i] := entries[i].(id := newId, generation := gen);
      }
      id := entries[i].id;
    }

    /** The id of the C string `str`, which stands at address ptr. */
    method Lookup(ptr: nat, str: string, table: StringTable, gen: int) returns (id: int)
      requires table.Valid() && Valid(table.texts, gen)
      modifies this, table, entries
      ensures table.Valid() && Valid(table.texts, gen)
      ensures table.texts == With(old(table.texts), str) && id == IdOf(table.texts, str)
    {
      for i := 0 to count
        invariant Valid(table.texts, gen) && table.texts == old(table.texts) && table.Valid()
      {
        if entries[i].ptr == ptr && entries[i].content == str {
          id := Refresh(i, table, gen);
          return;
        }
      }
      for i := 0 to count
        invariant Valid(table.texts, gen) && table.texts == old(table.texts) && table.Valid()
        invariant forall j :: 0 <= j < i ==> entries[j].content != str
      {
        if entries[i].content == str {
          entries[i] := entries[i].(ptr := ptr);
          id := Refresh(i, table, gen);
          return;
        }
      }
      StillValid(table.texts, str, gen);
      id := table.GetOrCreate(str);
      Store(Entry(ptr, str, id, gen), table.texts);
    }

    /** A miss: the new entry takes a free slot, or the oldest one. */
    method Store(e: Entry, ghost texts: seq<string>)
      requires Valid(texts, e.generation) && forall j :: 0 <= j < count ==> entries[j].content != e.content
      requires e.content in texts && e.id == IdOf(texts, e.content)
      modifies this, entries
      ensures Valid(texts, e.generation)
    {
      if count < CAPACITY {
        entries[count] := e;
        count := count + 1;
      } else {
        entries[writeIdx] := e;
        writeIdx := (writeIdx + 1) % CAPACITY;
      }
    }
  }

  // ---- a thread's whole run --------------------------------------------

  /** What happens to a thread's cache: a lookup, a text another thread adds,
      or a storage reset. */
  datatype Event = Look(ptr: nat, str: string) | OtherAdds(key: string) | ResetStorage

  function TextsAfter(texts: seq<string>, e: Event): seq<string> {
    match e
    case Look(_, str) => With(texts, str)
    case OtherAdds(key) => With(texts, key)
    case ResetStorage => [""]
  }

  /** What getOrCreate() alone would answer. */
  function AnswerTo(texts: seq<string>, e: Event): seq<int> {
    if e.Look? then [IdOf(With(texts, e.str), e.str)] else []
  }

  function TableIds(texts: seq<string>, events: seq<Event>): seq<int>
    decreases |events|
  {
    if events == [] then []
    else AnswerTo(texts, events[0]) + TableIds(TextsAfter(texts, events[0]), events[1..])
  }

  method Happen(cache: LocalStringCache, table: StringTable, gen: int, e: Event)
    returns (after: StringTable, newGen: int, ids: seq<int>)
    requires table.Valid() && cache.Valid(table.texts, gen)
    modifies cache, cache.entries, table
    ensures after == table || fresh(after)
    ensures after.Valid() && cache.Valid(after.texts, newGen)
    ensures after.texts == TextsAfter(old(table.texts), e) && ids == AnswerTo(old(table.texts), e)
  {
    after, newGen, ids := table, gen, [];
    match e {
      case Look(ptr, str) =>
        var id := cache.Lookup(ptr, str, table, gen);
        ids := [id];
      case OtherAdds(key) =>
        cache.StillValid(table.texts, key, gen);
        var _ := table.GetOrCreate(key);
      case ResetStorage =>
        cache.ValidAfterReset(table.texts, gen, [""], gen + 1);
        after := new StringTable();
        newGen := gen + 1;
    }
  }

  /** The table of each generation, as getOrCreate() alone would leave it. */
  function LocalTables(events: seq<Event>): (t: seq<seq<string>>)
    ensures t != []
  {
    if events == [] then [[""]]
    else
      var n := |events| - 1;
      var t := LocalTables(events[..n]);
      var texts := TextsAfter(t[|t| - 1], events[n]);
      if events[n].ResetStorage? then t + [texts] else t[|t| - 1 := texts]
  }

  /** Through evictions, pointer reuse and resets the cache answers exactly as
      getOrCreate() would, and leaves the table as it would. */
  method CachedIds(capacity: nat, events: seq<Event>) returns (ids: seq<int>, tables: seq<seq<string>>)
    requires capacity > 0
    ensures ids == TableIds([""], events) && tables == LocalTables(events)
  {
    hide LocalStringCache.Valid, StringTable.Valid, AnswerTo, TextsAfter;
    var cache := new LocalStringCache(capacity);
    var table := new StringTable();
    var gen := 0;
    ids, tables := [], [table.texts];
    assert events[..0] == [];
    assert events[0..] == events && [] + TableIds([""], events) == TableIds([""], events);
    for i := 0 to |events|
      invariant fresh(cache) && fresh(cache.entries) && fresh(table)
      invariant table.Valid() && cache.Valid(table.texts, gen)
      invariant ids + TableIds(table.texts, events[i..]) == TableIds([""], events)
      invariant tables == LocalTables(events[..i]) && tables[|tables| - 1] == table.texts
    {
      assert events[i..][1..] == events[i + 1..];
      assert events[..i + 1][..i] == events[..i];
      var more;
      table, gen, more := Happen(cache, table, gen, events[i]);
      Regroup(ids, more, TableIds(table.texts, events[i + 1..]));
      ids := ids + more;
      tables := if events[i].ResetStorage? then tables + [table.texts] else tables[|tables| - 1 := table.texts];
    }
    assert ids + [] == ids;
    assert events[..|events|] == events;
  }

  // ---- the table that keeps duplicates ---------------------------------

  class UStringTable {
    var texts: seq<string>

    ghost predicate Valid()
      reads this
    {
      texts != [] && texts[0] == ""
    }

    constructor ()
      ensures Valid() && texts == [""]
    {
      texts := [""];
    }

    method Create(key: string) returns (id: int)
      requires Valid()
      modifies this
      ensures Valid() && texts == if key == "" then old(texts) else old(texts) + [key]
      ensures id == if key == "" then 1 else |texts|
    {
      if key == "" {
        return 1;
      }
      texts := texts + [key];
      id := |texts|;
    }
  }

  /** Row id of the table holds the text; the empty text is always row 1. */
  predicate Names(texts: seq<string>, id: int, text: string) {
    1 <= id <= |texts| && texts[id - 1] == text && (text == "" ==> id == EMPTY_STRING_ID)
  }

  datatype Slot = Slot(content: string, id: int, valid: bool)

  /** Direct-mapped; what it returns does not depend on the hash function. */
  class UStringCache {
    const CAPACITY: nat
    const hash: string -> nat
    const entries: array<Slot>
    var generation: int

    ghost predicate Valid(texts: seq<string>, gen: int)
      reads this, entries
    {
      && CAPACITY > 0 && entries.Length == CAPACITY && generation <= gen
      && (generation == gen ==>
            forall i :: 0 <= i < CAPACITY && entries[i].valid ==> Names(texts, entries[i].id, entries[i].content))
    }

    /** The text a slot stands for in a generation. */
    function HeldAt(gen: int, slot: nat): Option<string>
      reads this, entries
      requires entries.Length == CAPACITY && slot < CAPACITY
    {
      if generation == gen && entries[slot].valid then Some(entries[slot].content) else None
    }

    function SlotOf(str: string): nat
      requires CAPACITY > 0
      ensures SlotOf(str) < CAPACITY
    {
      hash(str) % CAPACITY
    }

    constructor (capacity: nat, hash: string -> nat)
      requires capacity > 0
      ensures CAPACITY == capacity == entries.Length && this.hash == hash && generation == -1 && fresh(entries)
      ensures forall texts, gen :: gen >= 0 ==> Valid(texts, gen)
    {
      CAPACITY := capacity;
      this.hash := hash;
      entries := new Slot[capacity](_ => Slot("", 0, false));
      generation := -1;
    }

    method CheckGeneration(gen: int, ghost texts: seq<string>)
      requires Valid(texts, gen)
      modifies this, entries
      ensures Valid(texts, gen) && generation == gen
      ensures forall k :: 0 <= k < CAPACITY ==> HeldAt(gen, k) == old(HeldAt(gen, k))
    {
      if generation != gen {
        for i := 0 to CAPACITY
          invariant forall j :: 0 <= j < i ==> !entries[j].valid
        {
          entries[i] := entries[i].(valid := false);
        }
        generation := gen;
      }
    }

    /** lookup(const std::string&): the text joins the table unless its slot
        holds it, and holds it from then on. */
    method Lookup(str: string, table: UStringTable, gen: int) returns (id: int)
      requires table.Valid() && Valid(table.texts, gen)
      modifies this, entries, table
      ensures table.Valid() && Valid(table.texts, gen) && Names(table.texts, id, str)
      ensures table.texts ==
              if str == "" || old(HeldAt(gen, SlotOf(str))) == Some(str) then old(table.texts)
              else old(table.texts) + [str]
      ensures forall k :: 0 <= k < CAPACITY ==>
                HeldAt(gen, k) == if k == SlotOf(str) then Some(str) else old(HeldAt(gen, k))
    {
      CheckGeneration(gen, table.texts);
      var slot := SlotOf(str);
      var e := entries[slot];
      if e.valid && e.content == str {
        return e.id;
      }
      id := table.Create(str);
      entries[slot] := Slot(str, id, true);
    }

    /** lookup(const char*): the empty string never touches the cache. */
    method LookupChars(str: string, table: UStringTable, gen: int) returns (id: int)
      requires table.Valid() && Valid(table.texts, gen)
      modifies this, entries, table
      ensures table.Valid() && Valid(table.texts, gen) && Names(table.texts, id, str)
      ensures table.texts ==
              if str == "" || old(HeldAt(gen, SlotOf(str))) == Some(str) then old(table.texts)
              else old(table.texts) + [str]
      ensures forall k :: 0 <= k < CAPACITY ==>
                HeldAt(gen, k) == if str != "" && k == SlotOf(str) then Some(str) else old(HeldAt(gen, k))
    {
      if str == "" {
        return EMPTY_STRING_ID;
      }
      id := Lookup(str, table, gen);
    }

    lemma ValidAfterReset(texts: seq<string>, gen: int, newTexts: seq<string>, newGen: int)
      requires Valid(texts, gen) && gen < newGen
      ensures Valid(newTexts, newGen)
    {
    }

    lemma StillValid(texts: seq<string>, more: seq<string>, gen: int)
      requires Valid(texts, gen)
      ensures Valid(texts + more, gen)
    {
    }
  }

  // ---- a thread's whole run on it --------------------------------------

  /** The last text looked up in a slot in the current generation. */
  function LastIn(events: seq<Event>, slot: nat, capacity: nat, hash: string -> nat): Option<string>
    requires capacity > 0
  {
    if events == [] then None
    else
      var n := |events| - 1;
      match events[n]
      case Look(_, str) =>
        if hash(str) % capacity == slot then Some(str) else LastIn(events[..n], slot, capacity, hash)
      case OtherAdds(_) => LastIn(events[..n], slot, capacity, hash)
      case ResetStorage => None
  }

  /** A look misses unless its text is the last one looked up in its slot. */
  predicate Misses(before: seq<Event>, str: string, capacity: nat, hash: string -> nat)
    requires capacity > 0
  {
    LastIn(before, hash(str) % capacity, capacity, hash) != Some(str)
  }

  function Added(key: string): seq<string> {
    if key == "" then [] else [key]
  }

  /** The texts of each generation's table: the empty one, then in order every
      text another thread adds and every text whose look missed. */
  function Tables(events: seq<Event>, capacity: nat, hash: string -> nat): (t: seq<seq<string>>)
    requires capacity > 0
    ensures |t| == Resets(events) + 1
  {
    if events == [] then [[""]]
    else
      var n := |events| - 1;
      var t := Tables(events[..n], capacity, hash);
      match events[n]
      case Look(_, str) =>
        if Misses(events[..n], str, capacity, hash) then t[|t| - 1 := t[|t| - 1] + Added(str)] else t
      case OtherAdds(key) => t[|t| - 1 := t[|t| - 1] + Added(key)]
      case ResetStorage => t + [[""]]
  }

  function Resets(events: seq<Event>): nat {
    if events == [] then 0
    else Resets(events[..|events| - 1]) + if events[|events| - 1].ResetStorage? then 1 else 0
  }

  /** A lookup's answer and the number of resets before it. */
  datatype Answer = Answer(str: string, id: int, generation: nat)

  /** The looks of a run: their texts and generations. */
  function Looks(events: seq<Event>): seq<(string, nat)> {
    if events == [] then []
    else
      var n := |events| - 1;
      Looks(events[..n]) + if events[n].Look? then [(events[n].str, Resets(events[..n]))] else []
  }

  /** One answer a look, in order, that names the look's text in the table, as it
      finally is, of the look's generation. */
  ghost predicate AnswersHold(answers: seq<Answer>, tables: seq<seq<string>>, looks: seq<(string, nat)>) {
    && |answers| == |looks|
    && forall k :: 0 <= k < |answers| ==>
         && answers[k].str == looks[k].0 && answers[k].generation == looks[k].1 < |tables|
         && Names(tables[answers[k].generation], answers[k].id, answers[k].str)
  }

  lemma AnswersStay(answers: seq<Answer>, tables: seq<seq<string>>, looks: seq<(string, nat)>, more: seq<string>)
    requires AnswersHold(answers, tables, looks) && tables != []
    ensures AnswersHold(answers, tables[|tables| - 1 := tables[|tables| - 1] + more], looks)
  {
  }

  method UHappen(cache: UStringCache, table: UStringTable, gen: int, e: Event)
    returns (after: UStringTable, newGen: int, id: int)
    requires table.Valid() && gen >= 0 && cache.Valid(table.texts, gen)
    modifies cache, cache.entries, table
    ensures after.Valid() && cache.Valid(after.texts, newGen)
    ensures if e.ResetStorage? then fresh(after) && newGen == gen + 1 && after.texts == [""]
            else after == table && newGen == gen
    ensures e.OtherAdds? ==> after.texts == old(table.texts) + Added(e.key)
    ensures e.Look? ==>
              && Names(after.texts, id, e.str)
              && var hit := old(cache.HeldAt(gen, cache.SlotOf(e.str))) == Some(e.str);
                 after.texts == old(table.texts) + if hit then [] else Added(e.str)
    ensures forall k :: 0 <= k < cache.CAPACITY ==>
              cache.HeldAt(newGen, k) == if e.ResetStorage? then None
                                         else if e.Look? && k == cache.SlotOf(e.str) then Some(e.str)
                                         else old(cache.HeldAt(gen, k))
  {
    after, newGen, id := table, gen, 0;
    assert table.texts + [] == table.texts;
    match e {
      case Look(_, str) =>
        id := cache.Lookup(str, table, gen);
      case OtherAdds(key) =>
        cache.StillValid(table.texts, Added(key), gen);
        var _ := table.Create(key);
      case ResetStorage =>
        cache.ValidAfterReset(table.texts, gen, [""], gen + 1);
        after := new UStringTable();
        newGen := gen + 1;
    }
  }

  /** Every slot holds the last text looked up in it. */
  ghost predicate Tracks(cache: UStringCache, gen: int, events: seq<Event>, capacity: nat, hash: string -> nat)
    reads cache, cache.entries
  {
    && cache.CAPACITY == capacity > 0 && cache.hash == hash && cache.entries.Length == capacity
    && forall k :: 0 <= k < capacity ==> cache.HeldAt(gen, k) == LastIn(events, k, capacity, hash)
  }

  lemma LastInNext(events: seq<Event>, e: Event, capacity: nat, hash: string -> nat)
    requires capacity > 0
    ensures forall slot: nat :: LastIn(events + [e], slot, capacity, hash) ==
              if e.ResetStorage? then None
              else if e.Look? && hash(e.str) % capacity == slot then Some(e.str)
              else LastIn(events, slot, capacity, hash)
  {
    assert (events + [e])[..|events|] == events;
  }

  lemma TablesNext(events: seq<Event>, e: Event, capacity: nat, hash: string -> nat)
    requires capacity > 0
    ensures var t := Tables(events, capacity, hash);
            Tables(events + [e], capacity, hash) ==
            if e.ResetStorage? then t + [[""]]
            else if e.OtherAdds? then t[|t| - 1 := t[|t| - 1] + Added(e.key)]
            else t[|t| - 1 := t[|t| - 1] + if Misses(events, e.str, capacity, hash) then Added(e.str) else []]
    ensures Looks(events + [e]) == Looks(events) + if e.Look? then [(e.str, Resets(events))] else []
    ensures Resets(events + [e]) == Resets(events) + if e.ResetStorage? then 1 else 0
  {
    var t := Tables(events, capacity, hash);
    assert (events + [e])[..|events|] == events;
    assert t[|t| - 1] + [] == t[|t| - 1] && t[|t| - 1 := t[|t| - 1]] == t;
  }

  /** One step: the tables are those the events determine, and so are the answers. */
  method UStep(cache: UStringCache, table: UStringTable, ghost before: seq<Event>, e: Event, answers: seq<Answer>,
               tables: seq<seq<string>>)
    returns (after: UStringTable, newAnswers: seq<Answer>, newTables: seq<seq<string>>)
    requires table.Valid() && tables != [] && cache.Valid(table.texts, |tables| - 1)
    requires Tracks(cache, |tables| - 1, before, cache.CAPACITY, cache.hash)
    requires tables == Tables(before, cache.CAPACITY, cache.hash) && tables[|tables| - 1] == table.texts
    requires AnswersHold(answers, tables, Looks(before))
    modifies cache, cache.entries, table
    ensures after.Valid() && newTables != [] && cache.Valid(after.texts, |newTables| - 1)
    ensures after == table || fresh(after)
    ensures Tracks(cache, |newTables| - 1, before + [e], cache.CAPACITY, cache.hash)
    ensures newTables == Tables(before + [e], cache.CAPACITY, cache.hash) && newTables[|newTables| - 1] == after.texts
    ensures AnswersHold(newAnswers, newTables, Looks(before + [e]))
  {
    hide Names, Tables, Looks, LastIn, UStringCache.Valid, UStringTable.Valid, AnswersHold;
    var gen := |tables| - 1;
    ghost var texts := table.texts;
    assert Looks(before) + [] == Looks(before);
    TablesNext(before, e, cache.CAPACITY, cache.hash);
    LastInNext(before, e, cache.CAPACITY, cache.hash);
    var g, id;
    after, g, id := UHappen(cache, table, gen, e);
    if e.ResetStorage? {
      MoreTables(answers, tables, Looks(before), after.texts);
      newAnswers, newTables := answers, tables + [after.texts];
    } else {
      assert texts <= after.texts;
      AnswersStay(answers, tables, Looks(before), after.texts[|texts|..]);
      assert texts + after.texts[|texts|..] == after.texts;
      newAnswers, newTables := answers, tables[gen := after.texts];
      if e.Look? {
        OneMore(answers, newTables, Looks(before), Answer(e.str, id, gen));
        newAnswers := answers + [Answer(e.str, id, gen)];
      }
    }
  }

  /** Over a whole run, the tables are exactly those the events determine, and
      every look gets an answer that names its text in the table, as it finally
      is, of its generation. */
  method CachedNames(capacity: nat, hash: string -> nat, events: seq<Event>)
    returns (answers: seq<Answer>, tables: seq<seq<string>>)
    requires capacity > 0
    ensures tables == Tables(events, capacity, hash)
    ensures AnswersHold(answers, tables, Looks(events))
  {
    hide UStringCache.Valid, UStringTable.Valid, AnswersHold, Names, Tables, LastIn;
    var cache := new UStringCache(capacity, hash);
    var table := new UStringTable();
    answers, tables := [], [table.texts];
    NoAnswers(tables, capacity, hash);
    assert events[..0] == [];
    for i := 0 to |events|
      invariant fresh(cache) && fresh(cache.entries) && fresh(table)
      invariant table.Valid() && tables != [] && cache.Valid(table.texts, |tables| - 1)
      invariant Tracks(cache, |tables| - 1, events[..i], capacity, hash)
      invariant tables == Tables(events[..i], capacity, hash) && tables[|tables| - 1] == table.texts
      invariant AnswersHold(answers, tables, Looks(events[..i]))
    {
      assert events[..i + 1] == events[..i] + [events[i]];
      table, answers, tables := UStep(cache, table, events[..i], events[i], answers, tables);
    }
    assert events[..|events|] == events;
  }

  lemma NoAnswers(tables: seq<seq<string>>, capacity: nat, hash: string -> nat)
    requires capacity > 0
    ensures AnswersHold([], tables, Looks([]))
    ensures Tables([], capacity, hash) == [[""]]
    ensures forall slot: nat :: LastIn([], slot, capacity, hash) == None
  {
  }

  lemma MoreTables(answers: seq<Answer>, tables: seq<seq<string>>, looks: seq<(string, nat)>, texts: seq<string>)
    requires AnswersHold(answers, tables, looks)
    ensures AnswersHold(answers, tables + [texts], looks)
  {
  }

  lemma OneMore(answers: seq<Answer>, tables: seq<seq<string>>, looks: seq<(string, nat)>, a: Answer)
    requires AnswersHold(answers, tables, looks)
    requires a.generation < |tables| && Names(tables[a.generation], a.id, a.str)
    ensures AnswersHold(answers + [a], tables, looks + [(a.str, a.generation)])
  {
  }

  // ---- what the ids of the other cache name ----------------------------

  function AllAfter(texts: seq<string>, events: seq<Event>): seq<string>
    decreases |events|
  {
    if events == [] then texts else AllAfter(TextsAfter(texts, events[0]), events[1..])
  }

  lemma {:induction false} OneMoreEvent(texts: seq<string>, events: seq<Event>, e: Event)
    ensures AllAfter(texts, events + [e]) == TextsAfter(AllAfter(texts, events), e)
    ensures TableIds(texts, events + [e]) == TableIds(texts, events) + AnswerTo(AllAfter(texts, events), e)
    decreases |events|
  {
    hide TextsAfter, AnswerTo;
    if events == [] {
      assert [] + [e] == [e] && [e][1..] == [];
      assert AnswerTo(texts, e) + [] == [] + AnswerTo(texts, e);
    } else {
      var rest, next := events[1..], TextsAfter(texts, events[0]);
      assert (events + [e])[1..] == rest + [e];
      OneMoreEvent(next, rest, e);
      Regroup(AnswerTo(texts, events[0]), TableIds(next, rest), AnswerTo(AllAfter(next, rest), e));
    }
  }

  lemma LocalTablesNext(events: seq<Event>, e: Event)
    ensures var t := LocalTables(events);
            var texts := TextsAfter(t[|t| - 1], e);
            LocalTables(events + [e]) == if e.ResetStorage? then t + [texts] else t[|t| - 1 := texts]
  {
    assert (events + [e])[..|events|] == events;
  }

  /** Every id names its look's text in the table, as it finally is, of its
      generation; and each such table begins with the empty text and holds no
      text twice, so that a text has one id. */
  ghost predicate IdsHold(ids: seq<int>, tables: seq<seq<string>>, looks: seq<(string, nat)>) {
    && |ids| == |looks|
    && (forall k :: 0 <= k < |ids| ==> looks[k].1 < |tables| && Names(tables[looks[k].1], ids[k], looks[k].0))
    && (forall g :: 0 <= g < |tables| ==> tables[g] != [] && tables[g][0] == "" && Distinct(tables[g]))
  }

  lemma NamesStay(texts: seq<string>, key: string, id: int, text: string)
    requires Names(texts, id, text)
    ensures Names(With(texts, key), id, text)
  {
  }

  lemma WithStaysDistinct(texts: seq<string>, key: string)
    requires Distinct(texts) && texts != [] && texts[0] == ""
    ensures Distinct(With(texts, key)) && With(texts, key) != [] && With(texts, key)[0] == ""
    ensures Names(With(texts, key), IdOf(With(texts, key), key), key)
  {
    var all := With(texts, key);
    assert key in all;
    assert all[Find(all, key)] == key && all[0] == "";
  }

  lemma IdsHoldNext(ids: seq<int>, tables: seq<seq<string>>, looks: seq<(string, nat)>, key: string)
    requires IdsHold(ids, tables, looks) && tables != []
    ensures var n := |tables| - 1;
            var all := tables[n := With(tables[n], key)];
            && IdsHold(ids, all, looks)
            && IdsHold(ids + [IdOf(With(tables[n], key), key)], all, looks + [(key, n)])
  {
    hide Names, Distinct, With;
    var n := |tables| - 1;
    WithStaysDistinct(tables[n], key);
    forall k | 0 <= k < |ids| && looks[k].1 == n ensures Names(With(tables[n], key), ids[k], looks[k].0) {
      NamesStay(tables[n], key, ids[k], looks[k].0);
    }
  }

  lemma {:induction false} IdsNameTexts(events: seq<Event>)
    ensures var tables := LocalTables(events);
            && |tables| == Resets(events) + 1 && tables[|tables| - 1] == AllAfter([""], events)
            && IdsHold(TableIds([""], events), tables, Looks(events))
    decreases |events|
  {
    hide IdsHold, With, IdOf;
    if events == [] {
      NothingLooked();
    } else {
      var n := |events| - 1;
      var before, e := events[..n], events[n];
      assert events == before + [e];
      IdsNameTexts(before);
      OneMoreEvent([""], before, e);
      LocalTablesNext(before, e);
      var ids, tables, looks := TableIds([""], before), LocalTables(before), Looks(before);
      assert ids + [] == ids && looks + [] == looks;
      match e
      case Look(_, str) => IdsHoldNext(ids, tables, looks, str);
      case OtherAdds(key) => IdsHoldNext(ids, tables, looks, key);
      case ResetStorage => NewTableHolds(ids, tables, looks);
    }
  }

  lemma NothingLooked()
    ensures IdsHold([], [[""]], [])
  {
  }

  lemma NewTableHolds(ids: seq<int>, tables: seq<seq<string>>, looks: seq<(string, nat)>)
    requires IdsHold(ids, tables, looks)
    ensures IdsHold(ids, tables + [[""]], looks)
  {
  }

  function KeyOf(e: Event): Option<string> {
    match e
    case Look(_, str) => Some(str)
    case OtherAdds(key) => Some(key)
    case ResetStorage => None
  }

  predicate MentionedAt(events: seq<Event>, n: nat, g: nat, text: string)
    requires n < |events|
  {
    KeyOf(events[n]) == Some(text) && Resets(events[..n]) == g
  }

  /** Looked up or added in a generation. */
  ghost predicate Mentioned(events: seq<Event>, g: nat, text: string) {
    exists n: nat :: n < |events| && MentionedAt(events, n, g, text)
  }

  lemma MentionedNext(events: seq<Event>, e: Event, g: nat, text: string)
    ensures Mentioned(events + [e], g, text)
            <==> Mentioned(events, g, text) || (KeyOf(e) == Some(text) && Resets(events) == g)
  {
    var all, n := events + [e], |events|;
    assert forall k: nat :: k <= n ==> all[..k] == events[..k];
    assert events[..n] == events;
    if Mentioned(events, g, text) {
      var k: nat :| k < n && MentionedAt(events, k, g, text);
      assert MentionedAt(all, k, g, text);
    }
    if KeyOf(e) == Some(text) && Resets(events) == g {
      assert MentionedAt(all, n, g, text);
    }
    if Mentioned(all, g, text) {
      var k: nat :| k < n + 1 && MentionedAt(all, k, g, text);
      assert k < n ==> MentionedAt(events, k, g, text);
    }
  }

  lemma {:induction false} NothingLater(events: seq<Event>, g: nat, text: string)
    requires Mentioned(events, g, text)
    ensures g <= Resets(events)
  {
    var n := |events| - 1;
    assert events == events[..n] + [events[n]];
    MentionedNext(events[..n], events[n], g, text);
    if Mentioned(events[..n], g, text) {
      NothingLater(events[..n], g, text);
    }
  }

  /** A text is in the table of a generation if and only if it is the empty one
      or was looked up or added in that generation. */
  lemma {:induction false} TextsAreMentioned(events: seq<Event>, g: nat, text: string)
    requires g <= Resets(events)
    ensures |LocalTables(events)| == Resets(events) + 1
    ensures text in LocalTables(events)[g] <==> text == "" || Mentioned(events, g, text)
    decreases |events|
  {
    hide *;
    IdsNameTexts(events);
    if events == [] {
      NotMentioned(g, text);
    } else {
      var n := |events| - 1;
      var before, e := events[..n], events[n];
      assert events == before + [e];
      LocalTablesNext(before, e);
      MentionedNext(before, e, g, text);
      IdsNameTexts(before);
      TextsAfterMembers(LocalTables(before)[Resets(before)], e, text);
      ResetsNext(before, e);
      if g <= Resets(before) {
        TextsAreMentioned(before, g, text);
      } else if Mentioned(before, g, text) {
        NothingLater(before, g, text);
      }
    }
  }

  lemma NotMentioned(g: nat, text: string)
    ensures !Mentioned([], g, text) && Resets([]) == 0 && LocalTables([]) == [[""]]
  {
  }

  lemma TextsAfterMembers(texts: seq<string>, e: Event, text: string)
    ensures text in TextsAfter(texts, e)
            <==> if e.ResetStorage? then text == "" else text in texts || KeyOf(e) == Some(text)
    ensures KeyOf(e).None? <==> e.ResetStorage?
  {
  }

  lemma ResetsNext(before: seq<Event>, e: Event)
    ensures Resets(before + [e]) == Resets(before) + if e.ResetStorage? then 1 else 0
  {
    assert (before + [e])[..|before|] == before;
  }
}
