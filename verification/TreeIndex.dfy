/** The index on top of the tree: it counts its entries, and over any run of commands it answers
    as a finite map would. */
module TreeIndex {
  import opened TreeModel
  import BPlusTree

  datatype Command = InsertEntry(key: Key, value: Value) | DeleteEntry(key: Key) | SearchKey(key: Key)

  /** What a search finds in a map. */
  ghost function Lookup(m: map<Key, Value>, key: Key): seq<Value> {
    if key in m then [m[key]] else []
  }

  /** What a command does to a finite map, and what it answers. */
  ghost function After(m: map<Key, Value>, c: Command): map<Key, Value> {
    match c
    case InsertEntry(key, value) => m[key := value]
    case DeleteEntry(key) => m - {key}
    case SearchKey(_) => m
  }

  ghost function Answer(m: map<Key, Value>, c: Command): seq<Value> {
    if c.SearchKey? then Lookup(m, c.key) else []
  }

  ghost function MapAfter(m: map<Key, Value>, run: seq<Command>): map<Key, Value>
    decreases |run|
  {
    if run == [] then m else MapAfter(After(m, run[0]), run[1..])
  }

  ghost function Answers(m: map<Key, Value>, run: seq<Command>): seq<seq<Value>>
    decreases |run|
  {
    if run == [] then [] else [Answer(m, run[0])] + Answers(After(m, run[0]), run[1..])
  }

  lemma SizeAfterPut(m: map<Key, Value>, key: Key, value: Value)
    ensures |m[key := value]| == |m| + if key in m then 0 else 1
  {
    assert m[key := value].Keys == m.Keys + {key};
  }

  lemma SizeAfterDrop(m: map<Key, Value>, key: Key)
    ensures |m - {key}| == |m| - if key in m then 1 else 0
  {
    assert (m - {key}).Keys == m.Keys - {key};
    if key !in m {
      assert m - {key} == m;
    }
  }

  class Index {
    const tree: BPlusTree.Tree
    var size: int

    ghost predicate Valid()
      reads this, tree
    {
      tree.Valid() && size == |tree.content|
    }

    constructor (leafMax: int, internalMax: int, frames: nat)
      requires leafMax >= 2 && internalMax >= 4 && frames >= 5
      ensures Valid() && fresh(tree) && tree.content == map[] && tree.frames == frames
    {
      tree := new BPlusTree.Tree(leafMax, internalMax, frames);
      size := 0;
    }

    method InsertEntry(key: Key, value: Value)
      requires Valid()
      modifies this, tree
      ensures Valid() && tree.content == old(tree.content)[key := value]
    {
      var isNew := tree.Insert(key, value);
      SizeAfterPut(old(tree.content), key, value);
      size := size + if isNew then 1 else 0;
    }

    method DeleteEntry(key: Key)
      requires Valid()
      modifies this, tree
      ensures Valid() && tree.content == old(tree.content) - {key}
    {
      var removed := tree.Remove(key);
      SizeAfterDrop(old(tree.content), key);
      size := size - if removed then 1 else 0;
    }

    method SearchKey(key: Key) returns (result: seq<Value>)
      requires Valid()
      modifies tree`pool, tree`log, tree`trail
      ensures Valid() && result == Lookup(tree.content, key)
    {
      var found, v := tree.GetValue(key);
      result := v;
    }

    method Step(c: Command) returns (answer: seq<Value>)
      requires Valid()
      modifies this, tree
      ensures Valid() && tree.content == After(old(tree.content), c) && answer == Answer(old(tree.content), c)
    {
      answer := [];
      match c {
        case InsertEntry(key, value) => InsertEntry(key, value);
        case DeleteEntry(key) => DeleteEntry(key);
        case SearchKey(key) => answer := SearchKey(key);
      }
    }

    /** Any run of commands: every answer and the final contents are those of a finite map. */
    method Run(run: seq<Command>) returns (answers: seq<seq<Value>>)
      requires Valid()
      modifies this, tree
      ensures Valid() && tree.content == MapAfter(old(tree.content), run) && answers == Answers(old(tree.content), run)
    {
      answers := [];
      for i := 0 to |run|
        invariant Valid()
        invariant MapAfter(old(tree.content), run) == MapAfter(tree.content, run[i..])
        invariant Answers(old(tree.content), run) == answers + Answers(tree.content, run[i..])
      {
        var answer := Step(run[i]);
        assert run[i..][0] == run[i] && run[i..][1..] == run[i + 1..];
        ghost var rest := Answers(tree.content, run[i + 1..]);
        assert answers + ([answer] + rest) == answers + [answer] + rest;
        answers := answers + [answer];
      }
    }
  }
}
