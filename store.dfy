/**
 * The object storage and the table the handler talks to, as one mutable
 * object: `put_object` and `put_item` overwrite the entry under their key, a
 * batch writer performs its puts in order, and reads look a key up.
 */
module Storage {
  import opened Wrappers
  import opened Records

  class Store {
    var objects: map<(string, string), Payload>
    var items: map<(string, string), Item>

    constructor (init: StoreState)
      ensures State() == init
    {
      objects := init.objects;
      items := init.items;
    }

    function State(): StoreState
      reads this
    {
      StoreState(objects, items)
    }

    /** `get_object(Bucket=bucket, Key=key)`: `None` where the object does not exist. */
    function GetObject(bucket: string, key: string): (r: Option<Payload>)
      reads this
      ensures r.Some? <==> (bucket, key) in objects
      ensures r.Some? ==> r.value == objects[(bucket, key)]
    {
      if (bucket, key) in objects then Some(objects[(bucket, key)]) else None
    }

    /** `get_item(Key={"pk": pk, "sk": sk})`: `None` where there is no item. */
    function GetItem(pk: string, sk: string): (r: Option<Item>)
      reads this
      ensures r.Some? <==> (pk, sk) in items
      ensures r.Some? ==> r.value == items[(pk, sk)]
    {
      if (pk, sk) in items then Some(items[(pk, sk)]) else None
    }

    method PutObjectAt(bucket: string, key: string, p: Payload)
      modifies this
      ensures objects == old(objects)[(bucket, key) := p]
      ensures items == old(items)
    {
      objects := objects[(bucket, key) := p];
    }

    method PutItemAt(pk: string, sk: string, it: Item)
      modifies this
      ensures items == old(items)[(pk, sk) := it]
      ensures objects == old(objects)
    {
      items := items[(pk, sk) := it];
    }

    /** The puts of `ws`, one after the other. */
    method PutAll(ws: seq<Write>)
      modifies this
      ensures State() == ApplyWrites(old(State()), ws)
    {
      var i := 0;
      while i < |ws|
        invariant 0 <= i <= |ws|
        invariant ApplyWrites(State(), ws[i..]) == ApplyWrites(old(State()), ws)
      {
        assert ws[i..][1..] == ws[i + 1..];
        match ws[i] {
          case PutObject(b, k, p) => PutObjectAt(b, k, p);
          case PutItem(pk, sk, it) => PutItemAt(pk, sk, it);
        }
        i := i + 1;
      }
      assert ws[i..] == [];
    }
  }
}
