/**
 Account-keyed integer tables with the semantics of Python's `defaultdict(int)`,
 the representation of the fuzz test's shadow ledger.

 A missing key reads as 0. Reading an entry through the subscript inserts the
 key (`Touch`), and `t[a] += d` inserts it too (`Add`). The key set is part of
 the state, because the invariant checks iterate over it.
 */
module Ledger {

  /** An account, identified by its address (an externally owned account or a contract). */
  datatype Account = Account(address: nat)

  /** A shadow table: account to signed amount. Values may become negative. */
  type Table = map<Account, int>

  /** The value stored for `a`; a key that is not present reads as 0. */
  function Get(m: Table, a: Account): (v: int)
  {
    if a in m then m[a] else 0
  }

  /** `t[a]` used as a read: inserts `a` with value 0 when it is missing, changes no value. */
  function Touch(m: Table, a: Account): (r: Table)
    ensures r.Keys == m.Keys + {a}
    ensures forall b :: Get(r, b) == Get(m, b)
    ensures a in m ==> r == m
    ensures Total(r) == Total(m)
  {
    TotalAdd(m, a, 0);
    assert (if a in m then m else m[a := 0]) == m[a := Get(m, a) + 0];
    if a in m then m else m[a := 0]
  }

  /** `t[a] += d`: the key is present afterwards, only entry `a` changes, and by exactly `d`. */
  function Add(m: Table, a: Account, d: int): (r: Table)
    ensures r.Keys == m.Keys + {a}
    ensures Get(r, a) == Get(m, a) + d
    ensures forall b :: b != a ==> Get(r, b) == Get(m, b)
    ensures Total(r) == Total(m) + d
  {
    TotalAdd(m, a, d);
    m[a := Get(m, a) + d]
  }

  /**
   Moves `x` tokens from `from` to `to` (`t[from] -= x; t[to] += x`): both keys
   are present afterwards, the sum is unchanged, and a move to oneself changes no value.
   */
  function Move(m: Table, from: Account, to: Account, x: int): (r: Table)
    ensures r.Keys == m.Keys + {from, to}
    ensures from != to ==> Get(r, from) == Get(m, from) - x && Get(r, to) == Get(m, to) + x
    ensures from == to ==> Get(r, from) == Get(m, from)
    ensures SameExcept(r, m, {from, to})
    ensures Total(r) == Total(m)
  {
    Add(Add(m, from, -x), to, x)
  }

  /** Every account outside `changed` reads the same in both tables. */
  ghost predicate SameExcept(m: Table, m': Table, changed: set<Account>)
  {
    forall b :: b !in changed ==> Get(m, b) == Get(m', b)
  }

  /** The sum of all entries of a table. */
  ghost function Total(m: Table): (sum: int)
    decreases |m|
  {
    if m == map[] then 0
    else
      var a :| a in m;
      assert (m - {a}).Keys == m.Keys - {a};
      m[a] + Total(m - {a})
  }

  /** The sum does not depend on which key is taken out first. */
  lemma {:induction false} TotalRemove(m: Table, a: Account)
    requires a in m
    ensures Total(m) == m[a] + Total(m - {a})
    decreases |m|
  {
    var b :| b in m && Total(m) == m[b] + Total(m - {b});
    if b != a {
      var rest := m - {a} - {b};
      assert (m - {a}).Keys == m.Keys - {a};
      assert (m - {b}).Keys == m.Keys - {b};
      assert m - {b} - {a} == rest;
      TotalRemove(m - {b}, a);
      TotalRemove(m - {a}, b);
    }
  }

  /** `t[a] += d` changes the sum of the table by exactly `d`. */
  lemma {:induction false} TotalAdd(m: Table, a: Account, d: int)
    ensures Total(m[a := Get(m, a) + d]) == Total(m) + d
  {
    var r := m[a := Get(m, a) + d];
    TotalRemove(r, a);
    if a in m {
      TotalRemove(m, a);
      assert r - {a} == m - {a};
    } else {
      assert r - {a} == m;
    }
  }

  /** Every present key reads, in `view`, the value the table holds for it. */
  predicate Matches(m: Table, view: Account -> nat)
  {
    forall a :: a in m ==> view(a) == m[a]
  }

  /**
   Walks the keys of `m` in an arbitrary order and stops at the first account
   whose externally reported value differs from the table's.
   */
  method CheckAll(m: Table, view: Account -> nat) returns (ok: bool)
    ensures ok <==> Matches(m, view)
  {
    var pending := m.Keys;
    while pending != {}
      invariant pending <= m.Keys
      invariant forall a :: a in m && a !in pending ==> view(a) == m[a]
      decreases pending
    {
      var a :| a in pending;
      if view(a) != m[a] {
        return false;
      }
      pending := pending - {a};
    }
    return true;
  }
}
