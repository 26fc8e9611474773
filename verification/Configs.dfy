/** The controller's configuration file: a JSON object that is read, merged and rewritten. */
module Configs {
  import opened Options

  datatype Json = Null | Number(n: int) | Text(s: string)

  type Root = map<string, Json>

  /** A file: None if it is missing or does not parse; a file that is not writable stays as it is. */
  datatype File = File(content: Option<Root>, writable: bool)

  const RUN_SPEED := "runSpeed"
  const JOG_SPEED := "jogspeed"
  const CONTROL_LAW := "controlLaw"
  const PLANNER := "planner"
  const SPACE := "space"
  const CONTROLLER_ID := "ControllerID"

  lemma KeysDiffer()
    ensures RUN_SPEED != JOG_SPEED && RUN_SPEED != CONTROL_LAW && RUN_SPEED != PLANNER && RUN_SPEED != SPACE && RUN_SPEED != CONTROLLER_ID
    ensures JOG_SPEED != CONTROL_LAW && JOG_SPEED != PLANNER && JOG_SPEED != SPACE && JOG_SPEED != CONTROLLER_ID
    ensures CONTROL_LAW != PLANNER && CONTROL_LAW != SPACE && CONTROL_LAW != CONTROLLER_ID
    ensures PLANNER != SPACE && PLANNER != CONTROLLER_ID && SPACE != CONTROLLER_ID
  {
    assert RUN_SPEED[0] == 'r' && JOG_SPEED[0] == 'j' && CONTROL_LAW[0] == 'c' && PLANNER[0] == 'p'
        && SPACE[0] == 's' && CONTROLLER_ID[0] == 'C';
  }

  /** A failed read leaves the empty object to go on with. */
  function Read(f: File): Root {
    if f.content.Some? then f.content.value else map[]
  }

  function Wrote(f: File, root: Root): File {
    if f.writable then f.(content := Some(root)) else f
  }

  /** Read, override the given keys, write back. */
  function Merged(f: File, newRoot: Root): File {
    Wrote(f, Read(f) + newRoot)
  }

  /** A missing or null member reads as 0; the program has no answer for a text. */
  function AsInt(root: Root, key: string): int
    requires key in root ==> !root[key].Text?
  {
    if key in root && root[key].Number? then root[key].n else 0
  }

  function MergedAll(f: File, updates: seq<Root>): File
    decreases updates
  {
    if updates == [] then f else MergedAll(Merged(f, updates[0]), updates[1..])
  }

  /** The left-to-right override of all updates. */
  function Override(updates: seq<Root>): Root {
    if updates == [] then map[] else updates[0] + Override(updates[1..])
  }

  /** Any sequence of merges into a writable file is one override of what could be read of it;
      a file that cannot be written stays as it is. */
  lemma {:induction false} MergesAreOneOverride(f: File, updates: seq<Root>)
    ensures MergedAll(f, updates)
         == if updates == [] || !f.writable then f else File(Some(Read(f) + Override(updates)), true)
    decreases updates
  {
    if updates != [] {
      MergesAreOneOverride(Merged(f, updates[0]), updates[1..]);
      var root, u, rest := Read(f), updates[0], Override(updates[1..]);
      assert (root + u) + rest == root + (u + rest);
      assert (root + u) + map[] == root + u;
    }
  }

  /** In an override the last update of a key wins, and no other key appears. */
  lemma {:induction false} LastUpdateWins(updates: seq<Root>, key: string)
    ensures key in Override(updates) <==> exists i :: 0 <= i < |updates| && key in updates[i]
    ensures forall i | 0 <= i < |updates| && key in updates[i] && (forall j | i < j < |updates| :: key !in updates[j]) ::
              key in Override(updates) && Override(updates)[key] == updates[i][key]
  {
    if updates != [] {
      var rest := updates[1..];
      LastUpdateWins(rest, key);
      assert forall i | 1 <= i < |updates| :: updates[i] == rest[i - 1];
      forall i | 0 <= i < |updates| && key in updates[i] && (forall j | i < j < |updates| :: key !in updates[j])
        ensures key in Override(updates) && Override(updates)[key] == updates[i][key]
      {
        if i > 0 {
          forall j | i - 1 < j < |rest| ensures key !in rest[j] { assert rest[j] == updates[j + 1]; }
          assert key in rest[i - 1];
        } else {
          forall j | 0 <= j < |rest| ensures key !in rest[j] { assert rest[j] == updates[j + 1]; }
        }
      }
    }
  }

  /** The merge loop over the member names, listed in any order. */
  method MergeMembers(root: Root, newRoot: Root, names: seq<string>) returns (merged: Root)
    requires forall name :: name in names <==> name in newRoot
    ensures merged == root + newRoot
  {
    merged := root;
    for k := 0 to |names|
      invariant forall name :: name in merged <==> name in root || name in names[..k]
      invariant forall name | name in merged :: merged[name] == if name in names[..k] then newRoot[name] else root[name]
    {
      merged := merged[names[k] := newRoot[names[k]]];
      assert names[..k + 1] == names[..k] + [names[k]];
    }
    assert names[..|names|] == names;
    assert forall name :: name in merged <==> name in root + newRoot;
  }

  class ConfigFile {
    var content: Option<Root>
    const writable: bool

    ghost function Value(): File
      reads this
    {
      File(content, writable)
    }

    constructor (content: Option<Root>, writable: bool)
      ensures this.content == content && this.writable == writable
    {
      this.content, this.writable := content, writable;
    }

    method GetJsonValueFromFile() returns (ok: bool, root: Root)
      ensures root == Read(Value()) && ok == content.Some?
    {
      match content
      case Some(value) => return true, value;
      case None => return false, map[];
    }

    method SetJsonValueToFile(root: Root) returns (ok: bool)
      modifies this
      ensures Value() == Wrote(old(Value()), root) && ok == writable
    {
      if writable {
        content := Some(root);
      }
      ok := writable;
    }

    method SetConfigParam(newRoot: Root, names: seq<string>)
      requires forall name :: name in names <==> name in newRoot
      modifies this
      ensures Value() == Merged(old(Value()), newRoot)
    {
      var readable, root := GetJsonValueFromFile();
      var merged := MergeMembers(root, newRoot, names);
      var ok := SetJsonValueToFile(merged);
    }
  }
}
