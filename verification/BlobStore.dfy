/** The in-memory object store: sealed bytes by key, in buffers nobody else can reach. */
module BlobStore {
  import opened Types

  class Blobs {
    var bufs: map<Id, array<Octet>>
    ghost var objs: map<Id, Bytes> // what the buffers hold

    ghost predicate Valid()
      reads this, bufs.Values
    {
      bufs.Keys == objs.Keys && forall key | key in bufs :: bufs[key][..] == objs[key]
    }

    constructor ()
      ensures Valid() && objs == map[] && bufs == map[]
    {
      bufs, objs := map[], map[];
    }

    /** Stores a copy: later writes to the caller's buffer do not reach the object. */
    method Put(key: Id, data: array<Octet>)
      requires Valid()
      modifies this
      ensures Valid() && objs == old(objs)[key := data[..]]
      ensures fresh(bufs[key]) && bufs == old(bufs)[key := bufs[key]]
    {
      var copy_ := new Octet[data.Length];
      forall i | 0 <= i < data.Length {
        copy_[i] := data[i];
      }
      assert copy_[..] == data[..];
      bufs, objs := bufs[key := copy_], objs[key := data[..]];
    }

    /** Hands out a copy: what the caller does with it does not reach the object. */
    method Get(key: Id) returns (r: Option<array<Octet>>)
      requires Valid()
      ensures r.Some? <==> key in objs
      ensures r.Some? ==> fresh(r.value) && r.value[..] == objs[key]
    {
      if key !in bufs {
        return None;
      }
      var object_ := bufs[key];
      var copy_ := new Octet[object_.Length];
      forall i | 0 <= i < object_.Length {
        copy_[i] := object_[i];
      }
      assert copy_[..] == object_[..];
      r := Some(copy_);
    }

    method Delete(key: Id)
      requires Valid()
      modifies this
      ensures Valid() && objs == old(objs) - {key} && bufs == old(bufs) - {key}
    {
      bufs, objs := bufs - {key}, objs - {key};
    }
  }
}
