/**
  The browser key/value store (services/storageService.ts): one database with five
  object stores, each mapping a string key to a stored value. Values live in a single
  abstract map from (store, key) to value; asynchronous opening, transactions and quota
  errors are not modelled, but a request on a store that does not exist is rejected.
*/
module Storage {
  import opened Wrappers
  import Seqs

  const DbName: string := "SmartClosetDB"
  const DbVersion: nat := 1

  const ItemsStore: string := "items"
  const OutfitsStore: string := "outfits"
  const CalendarStore: string := "calendar"
  const ProfileStore: string := "profile"
  const UserStore: string := "user_meta"

  /** `STORES`, in declaration order. */
  const StoreNames: seq<string> := [ItemsStore, OutfitsStore, CalendarStore, ProfileStore, UserStore]

  const StoreSet: set<string> := {ItemsStore, OutfitsStore, CalendarStore, ProfileStore, UserStore}

  lemma StoreNamesDistinct()
    ensures |StoreNames| == 5
    ensures forall i, j :: 0 <= i < j < |StoreNames| ==> StoreNames[i] != StoreNames[j]
  {
  }

  /** A record's address: the object store and the key inside it. */
  type Key = (string, string)

  /** The contents after `store.put(v, key)` in `storeName`. */
  function Write<V>(data: map<Key, V>, store: string, key: string, v: V): (r: map<Key, V>)
    ensures r.Keys == data.Keys + {(store, key)}
    ensures r[(store, key)] == v
    ensures forall k :: k in data && k != (store, key) ==> r[k] == data[k]
  {
    data[(store, key) := v]
  }

  /** The contents after `store.delete(key)` in `storeName`. */
  function Erase<V>(data: map<Key, V>, store: string, key: string): (r: map<Key, V>)
    ensures r.Keys == data.Keys - {(store, key)}
    ensures forall k :: k in r ==> r[k] == data[k]
  {
    data - {(store, key)}
  }

  /** What `store.get(key)` resolves with: the value, or `undefined` for a key never written. */
  function Read<V>(data: map<Key, V>, store: string, key: string): (r: Option<V>)
    ensures r.Some? <==> (store, key) in data
    ensures r.Some? ==> r.value == data[(store, key)]
  {
    if (store, key) in data then Some(data[(store, key)]) else None
  }

  lemma ReadAfterWrite<V>(data: map<Key, V>, store: string, key: string, v: V)
    ensures Read(Write(data, store, key, v), store, key) == Some(v)
  {
  }

  lemma WriteOverwrites<V>(data: map<Key, V>, store: string, key: string, v: V, w: V)
    ensures Write(Write(data, store, key, v), store, key, w) == Write(data, store, key, w)
  {
  }

  lemma ReadAfterErase<V>(data: map<Key, V>, store: string, key: string)
    ensures Read(Erase(data, store, key), store, key) == None
  {
  }

  /** A put or a delete on one (store, key) leaves every other pair as it was. */
  lemma OtherKeysUntouched<V>(data: map<Key, V>, store: string, key: string, v: V, store': string, key': string)
    requires (store', key') != (store, key)
    ensures Read(Write(data, store, key, v), store', key') == Read(data, store', key')
    ensures Read(Erase(data, store, key), store', key') == Read(data, store', key')
  {
  }

  /** A key that no put has written since the last delete reads as absent. */
  lemma ReadUnwritten<V>(data: map<Key, V>, store: string, key: string)
    requires (store, key) !in data
    ensures Read(data, store, key) == None
  {
  }

  class Database<V> {
    /** The version the database was last opened with; 0 before it was ever created. */
    var version: nat
    var stores: set<string>
    var data: map<Key, V>

    ghost predicate Valid()
      reads this
    {
      && (version >= DbVersion ==> StoreSet <= stores)
      && (forall k :: k in data ==> k.0 in stores)
    }

    /** A database that does not exist yet. */
    constructor ()
      ensures Valid()
      ensures version == 0 && stores == {} && data == map[]
    {
      version := 0;
      stores := {};
      data := map[];
    }

    /** `if (!db.objectStoreNames.contains(name)) db.createObjectStore(name)`. */
    method CreateIfMissing(name: string) returns (created: bool)
      requires Valid()
      modifies this`stores
      ensures Valid()
      ensures created <==> name !in old(stores)
      ensures stores == old(stores) + {name}
    {
      created := name !in stores;
      if created {
        stores := stores + {name};
      }
    }

    /** `onupgradeneeded`: create each of the five stores only if it is missing; `created` lists those it made. */
    method Upgrade() returns (created: seq<string>)
      requires Valid()
      modifies this`stores
      ensures Valid()
      ensures forall x :: x in created <==> x in StoreSet && x !in old(stores)
      ensures StoreSet <= old(stores) ==> created == []
      ensures stores == old(stores) + StoreSet
    {
      var c1 := CreateIfMissing(ItemsStore);
      var c2 := CreateIfMissing(OutfitsStore);
      var c3 := CreateIfMissing(CalendarStore);
      var c4 := CreateIfMissing(ProfileStore);
      var c5 := CreateIfMissing(UserStore);
      created := (if c1 then [ItemsStore] else []) + (if c2 then [OutfitsStore] else [])
        + (if c3 then [CalendarStore] else []) + (if c4 then [ProfileStore] else [])
        + (if c5 then [UserStore] else []);
    }

    /** `initDB`: opening at `DB_VERSION` runs the upgrade when the database is older. */
    method Open()
      requires Valid()
      modifies this`stores, this`version
      ensures Valid() && version >= DbVersion
      ensures old(version) >= DbVersion ==> stores == old(stores) && version == old(version)
      ensures StoreSet <= stores
      ensures old(stores) <= stores && stores <= old(stores) + StoreSet
    {
      if version < DbVersion {
        var _ := Upgrade();
        version := DbVersion;
      }
    }

    /** `saveData`: put `v` under `key`; rejected (`ok` false) when the store does not exist. */
    method Put(store: string, key: string, v: V) returns (ok: bool)
      requires Valid()
      modifies this
      ensures Valid() && version >= DbVersion
      ensures ok <==> store in stores
      ensures data == if ok then Write(old(data), store, key, v) else old(data)
      ensures old(version) >= DbVersion ==> stores == old(stores) && version == old(version)
    {
      Open();
      ok := store in stores;
      if ok {
        data := Write(data, store, key, v);
      }
    }

    /** `getData`: the stored value, `None` for a key never written, `Fail` for a missing store. */
    method Get(store: string, key: string) returns (r: Attempt<Option<V>>)
      requires Valid()
      modifies this`stores, this`version
      ensures Valid() && version >= DbVersion && data == old(data)
      ensures r == if store in stores then Ok(Read(data, store, key)) else Fail("NotFoundError")
      ensures old(version) >= DbVersion ==> stores == old(stores) && version == old(version)
    {
      Open();
      if store in stores {
        r := Ok(Read(data, store, key));
      } else {
        r := Fail("NotFoundError");
      }
    }

    /** `deleteData`: remove `key`; rejected (`ok` false) when the store does not exist. */
    method Delete(store: string, key: string) returns (ok: bool)
      requires Valid()
      modifies this
      ensures Valid() && version >= DbVersion
      ensures ok <==> store in stores
      ensures data == if ok then Erase(old(data), store, key) else old(data)
      ensures old(version) >= DbVersion ==> stores == old(stores) && version == old(version)
    {
      Open();
      ok := store in stores;
      if ok {
        data := Erase(data, store, key);
      }
    }
  }
}
