/** MapOf of pkg/generic_sync/map.go when calls do not overlap: the same branches over the
    same three fields and shared entry objects, proved against one plain map. */
module SequentialMap {
  import opened Basics

  type Key(==,!new)
  type Value

  /** What an entry's pointer holds: nil, the expunged mark, or a value. */
  datatype Pointer = Nil | Expunged | Val(v: Value)

  class Entry {
    var p: Pointer

    constructor (v: Value)
      ensures p == Val(v)
    {
      p := Val(v);
    }

    method TryStore(v: Value) returns (ok: bool)
      modifies this
      ensures ok <==> !old(p).Expunged?
      ensures p == if ok then Val(v) else old(p)
    {
      if p.Expunged? { return false; }
      p := Val(v);
      return true;
    }

    method UnexpungeLocked() returns (was: bool)
      modifies this
      ensures was <==> old(p).Expunged?
      ensures p == if was then Nil else old(p)
    {
      was := p.Expunged?;
      if was { p := Nil; }
    }

    /** None when the entry is expunged; otherwise the value now stored, and whether it was loaded. */
    method TryLoadOrStore(v: Value) returns (r: Option<(Value, bool)>)
      modifies this
      ensures r.None? <==> old(p).Expunged?
      ensures r.Some? ==> r.value == if old(p).Val? then (old(p).v, true) else (v, false)
      ensures p == if old(p).Nil? then Val(v) else old(p)
    {
      if p.Expunged? { return None; }
      if p.Val? { return Some((p.v, true)); }
      p := Val(v);
      return Some((v, false));
    }

    method Delete()
      modifies this
      ensures p == if old(p).Val? then Nil else old(p)
    {
      if p.Val? { p := Nil; }
    }

    method TryExpungeLocked() returns (isExpunged: bool)
      modifies this
      ensures isExpunged <==> !old(p).Val?
      ensures p == if old(p).Nil? then Expunged else old(p)
    {
      if p.Nil? { p := Expunged; }
      return p.Expunged?;
    }
  }

  class MapOf {
    var read: map<Key, Entry>
    var amended: bool
    var dirty: Option<map<Key, Entry>>
    var misses: nat

    function Dirty(): map<Key, Entry>
      reads `dirty
    {
      if dirty.Some? then dirty.value else map[]
    }

    ghost function Entries(): set<Entry>
      reads `read, `dirty
    {
      (set k | k in read :: read[k]) + (set k | k in Dirty() :: Dirty()[k])
    }

    /** An entry is expunged exactly when it is in read but not in a non-nil dirty map. */
    ghost predicate Valid()
      reads `read, `amended, `dirty, Entries()
    {
      && Tables(read, amended, dirty)
      && (forall k :: k in Words() ==> (Words()[k].Expunged? <==> amended && k !in Dirty()))
    }

    static ghost predicate Tables(read: map<Key, Entry>, amended: bool, dirty: Option<map<Key, Entry>>) {
      && (amended <==> dirty.Some?)
      && (forall j, k :: j in read && k in read && read[j] == read[k] ==> j == k)
      && (dirty.Some? ==>
            && (forall j, k :: j in dirty.value && k in dirty.value && dirty.value[j] == dirty.value[k] ==> j == k)
            && (forall j, k :: j in read && k in dirty.value && read[j] == dirty.value[k] ==> j == k)
            && (forall k :: k in read && k in dirty.value ==> dirty.value[k] == read[k]))
    }

    ghost function At(k: Key): Pointer
      reads `read, `dirty, Entries()
    {
      if k in read then read[k].p else if k in Dirty() then Dirty()[k].p else Nil
    }

    ghost function Words(): map<Key, Pointer>
      reads `read, `dirty, Entries()
    {
      map k | k in read.Keys + Dirty().Keys :: At(k)
    }

    static ghost function Values(words: map<Key, Pointer>): map<Key, Value> {
      map k | k in words && words[k].Val? :: words[k].v
    }

    /** The plain map the structure stands for. */
    ghost function Contents(): map<Key, Value>
      reads `read, `dirty, Entries()
    {
      Values(Words())
    }

    constructor ()
      ensures Valid() && Contents() == map[] && Entries() == {}
    {
      read, amended, dirty, misses := map[], false, None, 0;
    }

    method MissLocked()
      requires Valid() && dirty.Some?
      modifies this
      ensures Valid() && Contents() == old(Contents()) && Entries() <= old(Entries())
      ensures if old(misses) + 1 < |old(dirty.value)|
              then misses == old(misses) + 1 && read == old(read) && dirty == old(dirty) && amended == old(amended)
              else misses == 0 && read == old(dirty.value) && dirty.None? && !amended
    {
      hide Valid, Contents, Entries;
      CountMiss();
      if misses < |dirty.value| { return; }
      Promote();
    }

    method CountMiss()
      requires Valid()
      modifies `misses
      ensures misses == old(misses) + 1
      ensures Valid() && Contents() == old(Contents()) && Entries() == old(Entries())
    {
      hide Tables, Values;
      misses := misses + 1;
      assert Words() == old(Words());
    }

    /** The dirty map becomes the read map. */
    method Promote()
      requires Valid() && dirty.Some?
      modifies this
      ensures Valid() && Contents() == old(Contents()) && Entries() <= old(Entries())
      ensures !amended && read == old(dirty.value) && dirty.None? && misses == 0
    {
      hide Values;
      ghost var words := Words();
      read, amended, dirty, misses := dirty.value, false, None, 0;
      assert forall k :: k in Words() ==> k in words && Words()[k] == words[k];
      assert forall k :: k in words && k !in Words() ==> words[k].Expunged?;
      SameValues(words, Words());
    }

    method Load(key: Key) returns (r: Option<Value>)
      requires Valid()
      modifies this
      ensures Valid() && Contents() == old(Contents()) && Entries() <= old(Entries())
      ensures r == Get(Contents(), key)
    {
      var e := Get(read, key);
      if e.None? && amended {
        e := Get(dirty.value, key);
        MissLocked();
      }
      if e.None? { return None; }
      return if e.value.p.Val? then Some(e.value.p.v) else None;
    }

    /** Writing an entry's pointer, its expunged mark aside, writes the plain map at its key. */
    lemma Written(key: Key, was: map<Key, Pointer>)
      requires Valid() && key in was && Words() == was[key := At(key)]
      ensures Contents() == if At(key).Val? then Values(was)[key := At(key).v] else Values(was) - {key}
    {
    }

    /** The fast path of Store. */
    method TryStore(key: Key, value: Value) returns (ok: bool)
      requires Valid() && key in read
      modifies read[key]
      ensures ok <==> !old(read[key].p).Expunged?
      ensures Valid() && Contents() == if ok then old(Contents())[key := value] else old(Contents()) - {key}
      ensures !ok ==> Contents() == old(Contents())
    {
      ok := read[key].TryStore(value);
      Written(key, old(Words()));
    }

    method Store(key: Key, value: Value)
      requires Valid()
      modifies this, Entries()
      ensures Valid() && Contents() == old(Contents())[key := value]
      ensures fresh(Entries() - old(Entries()))
    {
      if key in read {
        var ok := TryStore(key, value);
        if ok { return; }
      }
      if key in read {
        ReviveLocked(key);
        StoreLocked(key, read[key], value);
      } else if key in Dirty() {
        StoreLocked(key, Dirty()[key], value);
      } else {
        AddLocked(key, value);
      }
    }

    method StoreLocked(key: Key, e: Entry, value: Value)
      requires Valid() && !e.p.Expunged?
      requires (key in read && read[key] == e) || (key in Dirty() && Dirty()[key] == e)
      modifies e
      ensures Valid() && Contents() == old(Contents())[key := value]
    {
      e.p := Val(value);
      Written(key, old(Words()));
    }

    static lemma TablesGrow(read: map<Key, Entry>, dirty: map<Key, Entry>, key: Key, e: Entry)
      requires Tables(read, true, Some(dirty))
      requires if key in read then e == read[key] else key !in dirty && e !in read.Values && e !in dirty.Values
      ensures Tables(read, true, Some(dirty[key := e]))
    {
    }

    /** No other key has this key's entry. */
    static lemma OwnEntry(read: map<Key, Entry>, dirty: Option<map<Key, Entry>>, amended: bool, key: Key)
      requires Tables(read, amended, dirty) && key in read
      ensures forall k :: k in read && k != key ==> read[k] != read[key]
      ensures dirty.Some? ==> forall k :: k in dirty.value && k != key ==> dirty.value[k] != read[key]
      ensures amended <==> dirty.Some?
    {
    }

    static lemma SameValues(was: map<Key, Pointer>, now: map<Key, Pointer>)
      requires forall k :: k in now ==> k in was && (now[k] == was[k] || (!now[k].Val? && !was[k].Val?))
      requires forall k :: k in was && k !in now ==> !was[k].Val?
      ensures Values(now) == Values(was)
    {
    }

    /** unexpungeLocked and the re-entry into the dirty map. */
    method ReviveLocked(key: Key)
      requires Valid() && key in read
      modifies this`dirty, read[key]
      ensures Valid() && Contents() == old(Contents()) && fresh(Entries() - old(Entries()))
      ensures !read[key].p.Expunged?
    {
      hide Tables, Values;
      OwnEntry(read, dirty, amended, key);
      ghost var words := Words();
      var was := read[key].UnexpungeLocked();
      assert Words() == words[key := read[key].p];
      if was { Reenter(key); }
      SameValues(words, Words());
    }

    /** An entry that is expunged no more goes back into the dirty map. */
    method Reenter(key: Key)
      requires Tables(read, amended, dirty) && amended && key in read && key !in Dirty() && read[key].p.Nil?
      requires forall k :: k in Words() && k != key ==> (Words()[k].Expunged? <==> k !in Dirty())
      modifies `dirty
      ensures Valid() && Words() == old(Words()) && Entries() == old(Entries())
    {
      TablesGrow(read, dirty.value, key, read[key]);
      hide Tables;
      dirty := Some(dirty.value[key := read[key]]);
      assert Words() == old(Words());
    }

    /** The first entry of a key, in a dirty map that is made when there is none. */
    method AddLocked(key: Key, value: Value)
      requires Valid() && key !in read && key !in Dirty()
      modifies this, Entries()
      ensures Valid() && Contents() == old(Contents())[key := value]
      ensures fresh(Entries() - old(Entries()))
    {
      hide Valid, Contents;
      if !amended { AmendLocked(); }
      AddEntry(key, value);
    }

    lemma AmendedHasDirty()
      requires Valid()
      ensures amended <==> dirty.Some?
    {
    }

    static lemma MoreValues(words: map<Key, Pointer>, key: Key, value: Value)
      ensures Values(words[key := Val(value)]) == Values(words)[key := value]
    {
    }

    method AddEntry(key: Key, value: Value)
      requires Valid() && amended && key !in read && key !in Dirty()
      modifies this
      ensures Valid() && Contents() == old(Contents())[key := value]
      ensures fresh(Entries() - old(Entries()))
    {
      hide Tables, Values;
      var e := new Entry(value);
      Enter(key, e);
    }

    method Enter(key: Key, e: Entry)
      requires Valid() && amended && key !in read && key !in Dirty() && e !in Entries() && e.p.Val?
      modifies `dirty
      ensures Valid() && Contents() == old(Contents())[key := e.p.v] && Entries() == old(Entries()) + {e}
    {
      hide Tables, Values, Valid;
      AmendedHasDirty();
      ghost var words, d := Words(), dirty.value;
      WordsMatch(words);
      NewEntry(key, e);
      dirty := Some(dirty.value[key := e]);
      assert Words() == words[key := e.p];
      Entered(words, d, key);
      MoreValues(words, key, e.p.v);
    }

    lemma WordsMatch(words: map<Key, Pointer>)
      requires Valid() && words == Words()
      ensures forall k :: k in words ==> (words[k].Expunged? <==> amended && k !in Dirty())
    {
    }

    lemma NewEntry(key: Key, e: Entry)
      requires Valid() && amended && dirty.Some? && key !in read && key !in Dirty() && e !in Entries()
      ensures Tables(read, amended, Some(dirty.value[key := e]))
    {
      TablesGrow(read, dirty.value, key, e);
    }

    lemma Entered(words: map<Key, Pointer>, d: map<Key, Entry>, key: Key)
      requires Tables(read, amended, dirty) && amended && Dirty().Keys == d.Keys + {key}
      requires Words() == words[key := At(key)] && At(key).Val?
      requires forall k :: k in words ==> (words[k].Expunged? <==> amended && k !in d)
      ensures Valid()
    {
      hide Tables, Words, At;
    }

    method AmendLocked()
      requires Valid() && !amended
      modifies this, Entries()
      ensures Valid() && amended && read == old(read) && Dirty().Keys <= read.Keys
      ensures Contents() == old(Contents()) && Entries() == old(Entries())
    {
      AmendedHasDirty();
      OnlyRead();
      hide Values, Tables, Valid, Words, Contents;
      ghost var words, was := Words(), read;
      DirtyLocked();
      amended := true;
      Amended();
      SameValues(words, Words());
    }

    /** Without a dirty map the entries are those of the read map, and none is expunged. */
    lemma OnlyRead()
      requires Valid() && !amended
      ensures Words().Keys == read.Keys && forall k :: k in read ==> Words()[k] == read[k].p && !read[k].p.Expunged?
      ensures Contents() == Values(Words())
    {
    }

    /** The state right after the dirty map is built. */
    lemma Amended()
      requires amended && dirty.Some? && Tables(read, amended, dirty)
      requires forall k :: k in Dirty() <==> k in read && read[k].p.Val?
      requires forall k :: k in read ==> !read[k].p.Nil?
      ensures Valid() && Words().Keys == read.Keys && forall k :: k in read ==> Words()[k] == read[k].p
      ensures Contents() == Values(Words())
    {
      hide Values;
      assert forall k :: k in Dirty() ==> k in read;
    }

    /** A copy of the read map without its deleted entries, which are expunged. */
    method DirtyLocked()
      requires Valid() && dirty.None?
      modifies this`dirty, Entries()
      ensures dirty.Some? && Entries() == old(Entries())
      ensures Tables(read, true, dirty)
      ensures forall k :: k in read ==> read[k].p == if old(read[k].p).Nil? then Expunged else old(read[k].p)
      ensures forall k :: k in Dirty() <==> k in read && read[k].p.Val?
    {
      var d: map<Key, Entry> := map[];
      var left := read.Keys;
      while left != {}
        invariant left <= read.Keys && dirty == None
        invariant d.Keys <= read.Keys - left
        invariant forall k :: k in read.Keys - left ==>
          && read[k].p == (if old(read[k].p).Nil? then Expunged else old(read[k].p))
          && (k in d <==> read[k].p.Val?)
        invariant forall k :: k in d ==> d[k] == read[k]
        invariant forall k :: k in left ==> read[k].p == old(read[k].p)
        decreases |left|
      {
        var k :| k in left;
        var isExpunged := read[k].TryExpungeLocked();
        if !isExpunged { d := d[k := read[k]]; }
        left := left - {k};
      }
      dirty := Some(d);
    }

    /** The fast path of LoadOrStore, and its locked path on an entry of the read map. */
    method TryLoadOrStore(key: Key, e: Entry, value: Value) returns (r: Option<(Value, bool)>)
      requires Valid() && ((key in read && read[key] == e) || (key in Dirty() && Dirty()[key] == e))
      modifies e
      ensures Valid() && (r.None? <==> old(e.p).Expunged?) && (e.p.Expunged? <==> old(e.p).Expunged?)
      ensures r.None? ==> Contents() == old(Contents())
      ensures r.Some? ==> LoadedOrStored(old(Contents()), key, value, Contents(), r.value)
    {
      ghost var words := Words();
      ValueAt(words, key);
      hide Values, Tables;
      r := e.TryLoadOrStore(value);
      assert Words() == words[key := At(key)];
      Written(key, words);
    }

    /** What the plain map has for one key. */
    static lemma ValueAt(words: map<Key, Pointer>, key: Key)
      requires key in words
      ensures key in Values(words) <==> words[key].Val?
      ensures words[key].Val? ==> Values(words)[key] == words[key].v && Values(words)[key := words[key].v] == Values(words)
      ensures !words[key].Val? ==> Values(words) - {key} == Values(words)
    {
    }

    static ghost predicate LoadedOrStored(was: map<Key, Value>, key: Key, value: Value, now: map<Key, Value>, r: (Value, bool)) {
      if key in was then r == (was[key], true) && now == was else r == (value, false) && now == was[key := value]
    }

    method LoadOrStore(key: Key, value: Value) returns (r: (Value, bool))
      requires Valid()
      modifies this, Entries()
      ensures Valid() && LoadedOrStored(old(Contents()), key, value, Contents(), r)
      ensures fresh(Entries() - old(Entries()))
    {
      if key in read {
        var fast := TryLoadOrStore(key, read[key], value);
        if fast.Some? { return fast.value; }
        ReviveLocked(key);
        var slow := TryLoadOrStore(key, read[key], value);
        return slow.value;
      } else if key in Dirty() {
        var slow := TryLoadOrStore(key, Dirty()[key], value);
        MissLocked();
        return slow.value;
      } else {
        AddLocked(key, value);
        return (value, false);
      }
    }

    method Delete(key: Key)
      requires Valid()
      modifies this, Entries()
      ensures Valid() && Contents() == old(Contents()) - {key} && Entries() <= old(Entries())
    {
      hide Valid, Contents;
      if key in read {
        DeleteEntry(key);
      } else if amended {
        DeleteDirty(key);
      } else {
        NotThere(key);
      }
    }

    lemma NotThere(key: Key)
      requires Valid() && key !in read && !amended
      ensures Contents() - {key} == Contents()
    {
    }

    method DeleteEntry(key: Key)
      requires Valid() && key in read
      modifies read[key]
      ensures Valid() && Contents() == old(Contents()) - {key} && Entries() == old(Entries())
    {
      read[key].Delete();
      Written(key, old(Words()));
    }

    method DeleteDirty(key: Key)
      requires Valid() && key !in read && amended
      modifies `dirty
      ensures Valid() && Contents() == old(Contents()) - {key} && Entries() <= old(Entries())
    {
      hide Values;
      ghost var words := Words();
      dirty := Some(dirty.value - {key});
      assert Words() == words - {key};
      LessValues(words, key);
    }

    static lemma LessValues(words: map<Key, Pointer>, key: Key)
      ensures Values(words - {key}) == Values(words) - {key}
    {
    }

    /** What Range may visit: each pair once, until the callback says stop. */
    static ghost predicate Visit(m: map<Key, Value>, f: (Key, Value) -> bool, visited: seq<(Key, Value)>) {
      && (forall i :: 0 <= i < |visited| ==> visited[i].0 in m && visited[i].1 == m[visited[i].0])
      && (forall i, j :: 0 <= i < j < |visited| ==> visited[i].0 != visited[j].0)
      && (forall i :: 0 <= i < |visited| - 1 ==> f(visited[i].0, visited[i].1))
      && (|visited| == 0 || f(visited[|visited| - 1].0, visited[|visited| - 1].1) ==>
            forall k :: k in m ==> (k, m[k]) in visited)
    }

    method Range(f: (Key, Value) -> bool) returns (visited: seq<(Key, Value)>)
      requires Valid()
      modifies this
      ensures Valid() && Contents() == old(Contents()) && Entries() <= old(Entries())
      ensures !amended && Visit(Contents(), f, visited)
    {
      hide Visit, Tables, Values;
      if amended {
        AmendedHasDirty();
        Promote();
      }
      visited := RangeRead(f);
    }

    /** The loop of Range over a read map that holds every key. */
    method RangeRead(f: (Key, Value) -> bool) returns (visited: seq<(Key, Value)>)
      requires Valid() && !amended
      ensures Valid() && Contents() == old(Contents()) && Entries() == old(Entries()) && Visit(Contents(), f, visited)
    {
      hide Tables, Values, Words, Visit;
      ReadHoldsAll();
      visited := [];
      var left := read.Keys;
      while left != {}
        invariant left <= read.Keys && (forall i :: 0 <= i < |visited| ==> visited[i].0 !in left)
        invariant forall i :: 0 <= i < |visited| ==> f(visited[i].0, visited[i].1)
        invariant forall k :: k in Contents() && k !in left ==> (k, Contents()[k]) in visited
        invariant forall i :: 0 <= i < |visited| ==> visited[i].0 in Contents() && visited[i].1 == Contents()[visited[i].0]
        invariant forall i, j :: 0 <= i < j < |visited| ==> visited[i].0 != visited[j].0
        decreases |left|
      {
        var k :| k in left;
        left := left - {k};
        if read[k].p.Val? {
          var v := read[k].p.v;
          visited := visited + [(k, v)];
          if !f(k, v) {
            VisitOk(Contents(), f, visited);
            return;
          }
        }
      }
      VisitOk(Contents(), f, visited);
    }

    lemma ReadHoldsAll()
      requires Valid() && !amended
      ensures forall k :: k in Contents() <==> k in read && read[k].p.Val?
      ensures forall k :: k in Contents() ==> Contents()[k] == read[k].p.v
    {
    }

    static lemma VisitOk(m: map<Key, Value>, f: (Key, Value) -> bool, visited: seq<(Key, Value)>)
      requires forall i :: 0 <= i < |visited| ==> visited[i].0 in m && visited[i].1 == m[visited[i].0]
      requires forall i, j :: 0 <= i < j < |visited| ==> visited[i].0 != visited[j].0
      requires forall i :: 0 <= i < |visited| - 1 ==> f(visited[i].0, visited[i].1)
      requires |visited| == 0 || f(visited[|visited| - 1].0, visited[|visited| - 1].1) ==>
                 forall k :: k in m ==> (k, m[k]) in visited
      ensures Visit(m, f, visited)
    {
    }

    method ToMap() returns (ans: map<Key, Value>)
      requires Valid()
      modifies this
      ensures Valid() && Contents() == old(Contents()) && ans == Contents()
    {
      hide Valid, Contents, Entries;
      var visited := Range((k, v) => true);
      ans := map[];
      for i := 0 to |visited|
        invariant ans.Keys == (set j | 0 <= j < i :: visited[j].0)
        invariant forall k :: k in ans ==> k in Contents() && ans[k] == Contents()[k]
      {
        ans := ans[visited[i].0 := visited[i].1];
      }
    }

    /** Range with a callback that deletes each key it is shown. */
    method Clear()
      requires Valid()
      modifies this, Entries()
      ensures Valid() && Contents() == map[]
    {
      hide Valid, Contents, Entries;
      var visited := Range((k, v) => true);
      ghost var m := Contents();
      for i := 0 to |visited|
        invariant Valid() && Entries() <= old(Entries())
        invariant Contents() == m - (set j | 0 <= j < i :: visited[j].0)
      {
        Delete(visited[i].0);
      }
    }
  }
}
