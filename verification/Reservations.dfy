/** Operator-owned RAM reservations of the native databases, and how much of them is still unused. */
module Reservations {
  import opened Common
  import opened Sums
  import opened MemoryPolicy

  type Owner = string

  /** Reservations in bytes, as the programs hold them, and in MiB, as the policy file stores them. */
  type Policy = map<Owner, int>
  type Rows = map<string, int>

  predicate IdChar(c: char) {
    'a' <= c <= 'z' || '0' <= c <= '9'
  }

  predicate ValidId(s: string) {
    |s| == 15 && forall i :: 0 <= i < |s| ==> IdChar(s[i])
  }

  predicate ValidEach(rows: Rows) {
    forall k :: k in rows ==> ValidId(k) && 512 <= rows[k] <= 524288
  }

  predicate ValidRows(rows: Rows) {
    |rows| <= 1000 && ValidEach(rows)
  }

  function Bytes(rows: Rows): Policy {
    map k | k in rows :: rows[k] * MIB
  }

  function ParsePolicy(rows: Rows): Option<Policy> {
    if ValidRows(rows) then Some(Bytes(rows)) else None
  }

  /** What is written back to the file. */
  function Stored(policy: Policy): Rows {
    map k | k in policy :: policy[k] / MIB
  }

  /** The file that holds the policy reads back as it is. */
  predicate Loads(policy: Policy) {
    ParsePolicy(Stored(policy)) == Some(policy)
  }

  /** A policy can be read back exactly when it has at most a thousand well-named databases, each with 512 MiB to
      512 GiB in whole MiB. */
  lemma LoadsIff(policy: Policy)
    ensures Loads(policy) <==>
      && |policy| <= 1000
      && forall k :: k in policy ==>
           && |k| == 15 && (forall i :: 0 <= i < 15 ==> 'a' <= k[i] <= 'z' || '0' <= k[i] <= '9')
           && policy[k] % 1048576 == 0 && 536870912 <= policy[k] <= 549755813888
  {
    var rows := Stored(policy);
    assert rows.Keys == policy.Keys && |rows| == |rows.Keys| && |policy| == |policy.Keys|;
    hide ValidId;
    forall k | k in policy
      ensures ValidId(k) <==> |k| == 15 && forall i :: 0 <= i < 15 ==> 'a' <= k[i] <= 'z' || '0' <= k[i] <= '9'
    {
      ValidIdIff(k);
    }
    assert Bytes(rows) == policy <==> forall k :: k in policy ==> policy[k] % 1048576 == 0;
  }

  lemma ValidIdIff(k: string)
    ensures ValidId(k) <==> |k| == 15 && forall i :: 0 <= i < 15 ==> 'a' <= k[i] <= 'z' || '0' <= k[i] <= '9'
  {
  }

  lemma LoadedRows(policy: Policy) returns (rows: Rows)
    requires Loads(policy)
    ensures ValidRows(rows) && Bytes(rows) == policy && ParsePolicy(rows) == Some(policy)
    ensures rows.Keys == policy.Keys && |rows| == |policy|
  {
    rows := Stored(policy);
    assert rows.Keys == policy.Keys;
    assert |rows| == |rows.Keys| && |policy| == |policy.Keys|;
  }

  /** Setting one database keeps a policy loadable if and only if it is there already or there is room
      for it; taking one away always does. */
  lemma LoadsAfterEdit(policy: Policy, id: string, mib: int)
    requires Loads(policy) && ValidId(id) && 512 <= mib <= 524288
    ensures Loads(policy[id := mib * MIB]) <==> id in policy || |policy| < 1000
    ensures Loads(policy - {id})
  {
    var rows := LoadedRows(policy);
    hide Stored, Bytes, ValidRows;
    PolicyRoundTrip(rows, id, mib);
    assert id in rows <==> id in rows.Keys;
    assert id in policy <==> id in policy.Keys;
  }

  /** A policy that was loaded, with one database set to an accepted size, loads back unchanged
      exactly when it still has at most a thousand databases; one database less always does. */
  lemma PolicyRoundTrip(rows: Rows, id: string, mib: int)
    requires ValidRows(rows) && ValidId(id) && 512 <= mib <= 524288
    ensures
      var policy := ParsePolicy(rows).value;
      && (ParsePolicy(Stored(policy[id := mib * MIB])) == Some(policy[id := mib * MIB])
          <==> id in rows || |rows| < 1000)
      && ParsePolicy(Stored(policy - {id})) == Some(policy - {id})
  {
    hide Bytes, Stored, ValidRows;
    StoredBytes(rows[id := mib]);
    StoredBytes(rows - {id});
    BytesEdit(rows, id, mib);
    RowsStayValid(rows, id, mib);
  }

  lemma BytesEdit(rows: Rows, id: string, mib: int)
    ensures Bytes(rows)[id := mib * MIB] == Bytes(rows[id := mib])
    ensures Bytes(rows) - {id} == Bytes(rows - {id})
  {
  }

  lemma RowsStayValid(rows: Rows, id: string, mib: int)
    requires ValidRows(rows) && ValidId(id) && 512 <= mib <= 524288
    ensures ValidRows(rows[id := mib]) <==> id in rows || |rows| < 1000
    ensures ValidRows(rows - {id})
  {
    hide ValidId, ValidEach;
    RowCount(rows, id, mib);
    EachStaysValid(rows, id, mib);
  }

  lemma EachStaysValid(rows: Rows, id: string, mib: int)
    requires ValidEach(rows) && ValidId(id) && 512 <= mib <= 524288
    ensures ValidEach(rows[id := mib]) && ValidEach(rows - {id})
  {
    hide ValidId;
  }

  lemma RowCount(rows: Rows, id: string, mib: int)
    ensures |rows[id := mib]| == if id in rows then |rows| else |rows| + 1
    ensures |rows - {id}| <= |rows|
  {
    KeyCount(rows[id := mib], rows.Keys + {id});
    KeyCount(rows - {id}, rows.Keys - {id});
    KeyCount(rows, rows.Keys);
    WithAndWithout(rows.Keys, id);
  }

  lemma KeyCount(rows: Rows, keys: set<string>)
    requires rows.Keys == keys
    ensures |rows| == |keys|
  {
  }

  lemma WithAndWithout(keys: set<string>, id: string)
    ensures |keys + {id}| == if id in keys then |keys| else |keys| + 1
    ensures |keys - {id}| <= |keys|
  {
    if id in keys {
      assert keys + {id} == keys && keys == (keys - {id}) + {id};
    } else {
      assert keys - {id} == keys;
    }
  }

  lemma StoredBytes(rows: Rows)
    ensures Stored(Bytes(rows)) == rows
  {
  }

  ghost predicate Positive(policy: Policy) {
    forall k :: k in policy ==> policy[k] > 0
  }

  function Used(usage: map<Owner, int>, owner: Owner): int {
    Max(0, if owner in usage then usage[owner] else 0)
  }

  function Shortfalls(policy: Policy, usage: map<Owner, int>): map<Owner, int> {
    map k | k in policy :: Max(0, policy[k] - Used(usage, k))
  }

  /** The part of the reservations that their databases do not use yet. */
  ghost function Unconsumed(policy: Policy, usage: map<Owner, int>): int {
    Sum(Shortfalls(policy, usage))
  }

  lemma UnconsumedBounds(policy: Policy, usage: map<Owner, int>)
    requires Positive(policy)
    ensures 0 <= Unconsumed(policy, usage) <= Sum(policy)
  {
    hide Sum;
    SumNonNegative(Shortfalls(policy, usage));
    SumMonotone(Shortfalls(policy, usage), policy);
  }

  /** Databases that use more leave less to hold back for them. */
  lemma UnconsumedAntitone(policy: Policy, less: map<Owner, int>, more: map<Owner, int>)
    requires forall k :: k in policy && k in less && less[k] > 0 ==> k in more && less[k] <= more[k]
    ensures Unconsumed(policy, more) <= Unconsumed(policy, less)
  {
    hide Sum;
    SumMonotone(Shortfalls(policy, more), Shortfalls(policy, less));
  }

  /** One edit moves the unused part by what that one database is short of. */
  lemma UnconsumedEdit(policy: Policy, usage: map<Owner, int>, id: Owner, amount: int)
    ensures Unconsumed(policy[id := amount], usage) - Unconsumed(policy - {id}, usage)
      == if id in usage && usage[id] >= amount && amount >= 0 then 0
         else if id in usage && usage[id] > 0 then Max(0, amount - usage[id])
         else Max(0, amount)
  {
    ShortfallsEdit(policy, usage, id, amount);
    hide Sum, Shortfalls;
    SumPut(Shortfalls(policy, usage), id, Max(0, amount - Used(usage, id)));
  }

  lemma ShortfallsEdit(policy: Policy, usage: map<Owner, int>, id: Owner, amount: int)
    ensures Shortfalls(policy[id := amount], usage) == Shortfalls(policy, usage)[id := Max(0, amount - Used(usage, id))]
    ensures Shortfalls(policy - {id}, usage) == Shortfalls(policy, usage) - {id}
  {
    hide Used, Max;
    var a, b := Shortfalls(policy[id := amount], usage), Shortfalls(policy, usage)[id := Max(0, amount - Used(usage, id))];
    assert a.Keys == b.Keys;
    assert forall k :: k in a ==> a[k] == b[k];
    var c, d := Shortfalls(policy - {id}, usage), Shortfalls(policy, usage) - {id};
    assert c.Keys == d.Keys;
    assert forall k :: k in c ==> c[k] == d[k];
  }
}
