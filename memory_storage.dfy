/** MemoryStorage (src/adapters/memory-storage.ts): the in-memory storage
    adapter. Its record is a JavaScript object, so its
    keys have an order, the order `Object.keys` lists them in; the model
    keeps that order in `keys` beside the contents `data`. */
module Memory {
  import opened Types
  import opened Json
  import opened Strings

  /** What `setItem` may be handed: a string, kept as it is, or a token
      pair, kept as its JSON text. */
  datatype Item = Text(text: string) | Record(tokens: Tokens)

  /** The key list after `delete`: the same order without `key`. */
  function Without(keys: seq<string>, key: string): (r: seq<string>)
    ensures forall k :: k in r <==> k in keys && k != key
    ensures |r| <= |keys|
    ensures Distinct(keys) ==> Distinct(r)
    decreases |keys|
  {
    if |keys| == 0 then []
    else if keys[0] == key then Without(keys[1..], key)
    else
      var rest := Without(keys[1..], key);
      assert Distinct(keys) ==> Distinct([keys[0]] + rest) by {
        if Distinct(keys) {
          forall i, j | 0 <= i < j < |keys[1..]| ensures keys[1..][i] != keys[1..][j] {
            assert keys[1..][i] == keys[i + 1] && keys[1..][j] == keys[j + 1];
          }
          assert keys[0] !in keys[1..];
          assert keys[0] !in rest;
          forall i, j | 0 <= i < j < |[keys[0]] + rest| ensures ([keys[0]] + rest)[i] != ([keys[0]] + rest)[j] {
            if i > 0 {
              assert ([keys[0]] + rest)[i] == rest[i - 1] && ([keys[0]] + rest)[j] == rest[j - 1];
            } else {
              assert ([keys[0]] + rest)[j] == rest[j - 1];
            }
          }
        }
      }
      [keys[0]] + rest
  }

  class MemoryStorage {
    var data: map<string, string>
    /** `Object.keys(this.data)`, in insertion order. */
    var keys: seq<string>

    /** The key list names every stored key once. */
    ghost predicate Valid()
      reads this
    {
      Distinct(keys) && forall k :: k in data <==> k in keys
    }

    /** A new storage starts with the empty record. */
    constructor ()
      ensures Valid() && data == map[] && keys == []
    {
      data := map[];
      keys := [];
    }

    /** `length`: the number of stored keys. */
    function Length(): (n: nat)
      reads this
      requires Valid()
      ensures n == |data|
    {
      DistinctCardinality(keys);
      assert data.Keys == set k | k in keys;
      |keys|
    }

    /** `getItem`: absent keys give null (None). */
    function GetItem(key: string): (r: Option<string>)
      reads this
      ensures r.Some? <==> key in data
      ensures r.Some? ==> r.value == data[key]
    {
      if key in data then Some(data[key]) else None
    }

    /** `key(index)`: the VALUE stored under the index-th key. Out of range,
        `Object.keys(...)[index]` is undefined and the lookup is of the
        key "undefined". */
    function Key(index: int): (r: Option<string>)
      reads this
      requires Valid()
      ensures 0 <= index < |keys| ==> r.Some? && r.value == data[keys[index]]
      ensures !(0 <= index < |keys|) ==> r == GetItem("undefined")
    {
      if 0 <= index < |keys| then GetItem(keys[index]) else GetItem("undefined")
    }

    /** `setItem`: the key now holds the item's text; a new key goes to the
        end of the key list, an existing one keeps its place. */
    method SetItem(key: string, item: Item, codec: TokenCodec)
      modifies this
      requires Valid()
      ensures Valid()
      ensures data == old(data)[key := if item.Text? then item.text else codec.stringify(item.tokens)]
      ensures keys == if key in old(data) then old(keys) else old(keys) + [key]
      ensures Length() == old(Length()) + (if key in old(data) then 0 else 1)
      // what is stored `getItem` returns; no other key changes
      ensures GetItem(key) == Some(if item.Text? then item.text else codec.stringify(item.tokens))
      ensures forall k :: k != key ==> GetItem(k) == old(GetItem(k))
      // a stored pair parses back to the pair itself
      ensures item.Record? && Lawful(codec) ==> codec.parse(GetItem(key).value) == Some(item.tokens)
    {
      var stringed := if item.Text? then item.text else codec.stringify(item.tokens);
      if key !in data {
        keys := keys + [key];
      }
      data := data[key := stringed];
    }

    /** `removeItem`: `delete this.data[key]`. */
    method RemoveItem(key: string)
      modifies this
      requires Valid()
      ensures Valid()
      ensures data == old(data) - {key}
      ensures keys == Without(old(keys), key)
    {
      keys := Without(keys, key);
      data := data - {key};
    }

    /** `clear`: the record is replaced by an empty one. */
    method Clear()
      modifies this
      ensures Valid() && data == map[] && keys == []
      ensures Length() == 0
    {
      data := map[];
      keys := [];
    }
  }
}
