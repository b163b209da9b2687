/** The dictionary of names: a growing table whose chains link to smaller indexes. */
module XmlDict {
  import opened Wrappers

  const BUCKETS: nat := 127

  /** `next` is an index plus one; zero ends the chain. */
  datatype Entry<V> = Entry(name: string, data: V, next: nat)

  /** Links go to strictly smaller indexes. */
  ghost predicate Downward<V>(log: seq<Entry<V>>) {
    forall i :: 0 <= i < |log| ==> log[i].next <= i
  }

  /** The walk along a chain. */
  function Lookup<V>(log: seq<Entry<V>>, from: nat, name: string): Option<V>
    requires Downward(log) && from <= |log|
    decreases from
  {
    if from == 0 then None
    else if log[from - 1].name == name then Some(log[from - 1].data)
    else Lookup(log, log[from - 1].next, name)
  }

  lemma {:induction false} LookupKeeps<V>(log: seq<Entry<V>>, e: Entry<V>, from: nat, name: string)
    requires Downward(log) && from <= |log| && e.next <= |log|
    ensures Downward(log + [e]) && Lookup(log + [e], from, name) == Lookup(log, from, name)
    decreases from
  {
    if from > 0 {
      LookupKeeps(log, e, log[from - 1].next, name);
    }
  }

  function Get<V>(model: map<string, V>, name: string): Option<V> {
    if name in model then Some(model[name]) else None
  }

  class Dict<V> {
    var entries: array<Option<Entry<V>>>
    var used: nat
    const hash: string -> nat
    const heads: array<nat>
    /** The entries in use. */
    ghost var log: seq<Entry<V>>
    ghost var model: map<string, V>

    function Bucket(name: string): nat {
      hash(name) % BUCKETS
    }

    ghost predicate Valid()
      reads this, entries, heads
    {
      && heads.Length == 128 && used == |log| <= entries.Length && Downward(log)
      && (forall i :: 0 <= i < used ==> entries[i] == Some(log[i]))
      && (forall b :: 0 <= b < heads.Length ==> heads[b] <= used)
      && (forall name {:trigger Get(model, name)} :: Lookup(log, heads[Bucket(name)], name) == Get(model, name))
    }

    /** `dict_new` */
    constructor (size: nat, h: string -> nat)
      ensures Valid() && model == map[] && hash == h && fresh(entries) && fresh(heads)
    {
      entries := new Option<Entry<V>>[if size == 0 then 100 else size](i => None);
      used := 0;
      hash := h;
      heads := new nat[128](i => 0);
      log, model := [], map[];
    }

    /** `dict_find` */
    method Find(name: string) returns (r: Option<V>)
      requires Valid()
      ensures r == Get(model, name)
    {
      var h: nat := heads[Bucket(name)];
      while h != 0
        invariant h <= used && Lookup(log, h, name) == Get(model, name)
      {
        h := h - 1;
        if entries[h].value.name == name {
          return Some(entries[h].value.data);
        }
        h := entries[h].value.next;
      }
      return None;
    }

    /** More room when the table is full. */
    method Room()
      requires Valid()
      modifies this`entries
      ensures Valid() && used < entries.Length && (entries == old(entries) || fresh(entries))
    {
      if used >= entries.Length {
        var was := entries;
        entries := new Option<Entry<V>>[was.Length + 100](
          i requires 0 <= i < was.Length + 100 reads was => if i < was.Length then was[i] else None);
      }
    }

    /** The new entry goes in front of its chain and hides older ones of its name. */
    method Push(name: string, data: V)
      requires Valid() && used < entries.Length
      modifies this`used, this`log, this`model, entries, heads
      ensures Valid() && model == old(model)[name := data]
    {
      var d := Bucket(name);
      ghost var e := Entry(name, data, heads[d]);
      ghost var was, before := log, model;
      forall b, m | 0 <= b < heads.Length ensures Downward(was + [e])
          && Lookup(was + [e], heads[b], m) == Lookup(was, heads[b], m) {
        LookupKeeps(was, e, heads[b], m);
      }
      entries[used] := Some(Entry(name, data, heads[d]));
      used := used + 1;
      heads[d] := used;
      log := log + [e];
      model := model[name := data];
      forall m ensures Lookup(log, heads[Bucket(m)], m) == Get(model, m) {
        assert Get(before, m) == Lookup(was, old(heads[Bucket(m)]), m);
      }
    }

    /** `dict_add`: nothing happens when the name is there. */
    method Add(name: string, data: V) returns (added: bool)
      requires Valid()
      modifies this, entries, heads
      ensures Valid() && (entries == old(entries) || fresh(entries)) && added == (name !in old(model))
      ensures model == if added then old(model)[name := data] else old(model)
    {
      Room();
      var found := Find(name);
      if found.Some? {
        return false;
      }
      Push(name, data);
      return true;
    }

    /** `dict_replace`: the new value overrides. */
    method Replace(name: string, data: V)
      requires Valid()
      modifies this, entries, heads
      ensures Valid() && (entries == old(entries) || fresh(entries)) && model == old(model)[name := data]
    {
      Room();
      Push(name, data);
    }
  }
}
