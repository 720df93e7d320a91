/** The store behind the sessions: one version and one value per uid and key, and a save that
    is accepted only if every key is submitted under the next version. */
module KVStores {
  import opened Shared
  import opened Sessions
  import opened MessageBases

  datatype Loc = Loc(uid: nat, key: Key)

  datatype Cell = Cell(version: nat, value: Value)

  type Cells = map<Loc, Cell>

  function Version(cells: Cells, loc: Loc): nat {
    if loc in cells then cells[loc].version else 0
  }

  function Lookup(cells: Cells, loc: Loc): KVData {
    if loc in cells then KVData(loc.key, Some(cells[loc].value), cells[loc].version) else KVData(loc.key, None, 0)
  }

  function LookupAll(cells: Cells, uid: nat, keys: seq<Key>): seq<KVData> {
    seq(|keys|, i requires 0 <= i < |keys| => Lookup(cells, Loc(uid, keys[i])))
  }

  function ItemKeys(items: seq<SaveItem>): seq<Key> {
    seq(|items|, i requires 0 <= i < |items| => items[i].key)
  }

  predicate Accepts(cells: Cells, uid: nat, items: seq<SaveItem>) {
    forall i :: 0 <= i < |items| ==> Version(cells, Loc(uid, items[i].key)) + 1 == items[i].version
  }

  function ApplyItems(cells: Cells, uid: nat, items: seq<SaveItem>): Cells {
    if items == [] then cells
    else
      var it := items[|items| - 1];
      ApplyItems(cells, uid, items[..|items| - 1])[Loc(uid, it.key) := Cell(it.version, it.value)]
  }

  function QueryReply(cells: Cells, uid: nat, keys: seq<Key>): Response {
    QueryRsp(Success, uid, LookupAll(cells, uid, keys))
  }

  /** A success reply does not name the uid. */
  function SaveReply(cells: Cells, uid: nat, items: seq<SaveItem>): Response {
    if Accepts(cells, uid, items) then SaveRsp(Success, 0, [])
    else SaveRsp(VerDiff, uid, LookupAll(cells, uid, ItemKeys(items)))
  }

  class KVStore {
    var cells: Cells

    constructor ()
      ensures cells == map[]
    {
      cells := map[];
    }

    method HandleQuery(uid: nat, keys: seq<Key>) returns (reply: Response)
      ensures reply == QueryReply(cells, uid, keys)
    {
      var datas: seq<KVData> := [];
      for i := 0 to |keys|
        invariant datas == LookupAll(cells, uid, keys[..i])
      {
        datas := datas + [Lookup(cells, Loc(uid, keys[i]))];
      }
      assert keys[..|keys|] == keys;
      reply := QueryRsp(Success, uid, datas);
    }

    /** All keys or none: the versions are all checked before anything is written. */
    method HandleSave(uid: nat, items: seq<SaveItem>) returns (reply: Response)
      modifies this
      ensures reply == SaveReply(old(cells), uid, items)
      ensures cells == if Accepts(old(cells), uid, items) then ApplyItems(old(cells), uid, items) else old(cells)
    {
      var versionDiff := false;
      for i := 0 to |items|
        invariant cells == old(cells) && !versionDiff
        invariant forall j :: 0 <= j < i ==> Version(cells, Loc(uid, items[j].key)) + 1 == items[j].version
      {
        if Version(cells, Loc(uid, items[i].key)) + 1 != items[i].version {
          versionDiff := true;
          break;
        }
      }
      if !versionDiff {
        assert items[..0] == [];
        for i := 0 to |items|
          invariant cells == ApplyItems(old(cells), uid, items[..i])
        {
          assert items[..i + 1][..i] == items[..i];
          cells := cells[Loc(uid, items[i].key) := Cell(items[i].version, items[i].value)];
        }
        assert items[..|items|] == items;
        return SaveRsp(Success, 0, []);
      }
      reply := HandleQuery(uid, ItemKeys(items));
      reply := SaveRsp(VerDiff, uid, reply.datas);
    }
  }
}
