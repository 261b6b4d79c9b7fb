/** The Option type that stands in for Java's nullable references. */
module Wrappers {
  datatype Option<+T> = None | Some(value: T)
}

/**
 * The record store's data model: one field map per check number, the
 * field names the bot uses, and the notion of an export-eligible record.
 */
module Records {
  /** One user's record: field name to value (an inner HashMap<String, String>). */
  type Fields = map<string, string>

  /** Check number to record (the storage's `userData` map). */
  type UserData = map<string, Fields>

  const FioKey := "fio"
  const AddressKey := "address"
  const PhoneKey := "phone"
  const UidKey := "uid"
  const PaymentAmountKey := "paymentAmount"

  /** A record is export-eligible when name, address and phone are all present. */
  predicate Complete(f: Fields) {
    FioKey in f && AddressKey in f && PhoneKey in f
  }

  /** The check numbers of export-eligible records. */
  function CompleteKeys(data: UserData): set<string> {
    set k | k in data && Complete(data[k])
  }

  /** Map.getOrDefault. */
  function GetOrDefault<K, V>(m: map<K, V>, k: K, default: V): V {
    if k in m then m[k] else default
  }

  /** Map.putIfAbsent: an existing entry wins. */
  function PutIfAbsent<K, V>(m: map<K, V>, k: K, v: V): map<K, V> {
    if k in m then m else m[k := v]
  }

  /** No element of `s` occurs twice. */
  predicate NoDuplicates<T(==)>(s: seq<T>) {
    forall i, j :: 0 <= i < j < |s| ==> s[i] != s[j]
  }

  /**
   * `order` lists every element of `keys` exactly once: one possible
   * iteration order of a hash map or hash set whose key set is `keys`.
   */
  ghost predicate Enumerates(order: seq<string>, keys: set<string>) {
    NoDuplicates(order) && forall x :: x in order <==> x in keys
  }

  /** An iteration order visits as many elements as the collection holds. */
  lemma {:induction false} EnumerationSize(order: seq<string>, keys: set<string>)
    requires Enumerates(order, keys)
    ensures |order| == |keys|
  {
    if order != [] {
      var n := |order| - 1;
      var x := order[n];
      var front := order[..n];
      assert order == front + [x];
      forall y
        ensures y in front <==> y in keys - {x}
      {
        if y in front {
          var i :| 0 <= i < n && front[i] == y;
          assert order[i] == y && order[n] == x;
        }
        if y in keys - {x} {
          assert y in order;
          var i :| 0 <= i < |order| && order[i] == y;
          assert i != n;
          assert front[i] == y;
        }
      }
      assert NoDuplicates(front) by {
        forall i, j | 0 <= i < j < |front| ensures front[i] != front[j] {
          assert order[i] == front[i] && order[j] == front[j];
        }
      }
      EnumerationSize(front, keys - {x});
    } else {
      assert forall y :: y !in keys;
      assert keys == {};
    }
  }
}
