/** The `watched_addresses` table: rows clustered by id, and the queries made of it. */
module WatchedAddress {
  import opened Prelude

  datatype Row = Row(id: nat, appId: nat, chain: string, address: string, enabled: bool)

  /** Rows in id order, as the clustered primary key keeps them. */
  type Table = seq<Row>

  ghost predicate Sorted(t: Table) {
    && (forall i :: 0 <= i < |t| ==> 0 < t[i].id)
    && (forall i, j :: 0 <= i < j < |t| ==> t[i].id < t[j].id)
  }

  /** How `=` compares text columns; the schema leaves the choice to the server. */
  datatype Collation = Binary | CaseInsensitive

  predicate SqlEq(col: Collation, a: string, b: string) {
    match col
    case Binary => a == b
    case CaseInsensitive => ToLower(a) == ToLower(b)
  }

  function Select(t: seq<Row>, p: Row -> bool): (r: seq<Row>)
    ensures forall x :: x in r <==> x in t && p(x)
    ensures |r| <= |t|
  {
    if t == [] then []
    else if p(t[0]) then [t[0]] + Select(t[1..], p)
    else Select(t[1..], p)
  }

  /** WHERE status = 1. */
  function Enabled(t: Table): seq<Row> {
    Select(t, (r: Row) => r.enabled)
  }

  /** WHERE id > since AND status = 1 ORDER BY id. */
  function ListAfterID(t: Table, since: nat): seq<Row> {
    Select(t, (r: Row) => r.enabled && since < r.id)
  }

  /** WHERE chain = ? AND address = ? AND status = 1. */
  function ListByChainAddress(col: Collation, t: Table, chain: string, address: string): seq<Row> {
    Select(t, (r: Row) => r.enabled && SqlEq(col, r.chain, chain) && SqlEq(col, r.address, address))
  }

  function MaxId(t: seq<Row>): nat {
    if t == [] then 0 else Max(t[0].id, MaxId(t[1..]))
  }

  lemma {:induction false} MaxIdIsMax(t: seq<Row>)
    ensures forall r :: r in t ==> r.id <= MaxId(t)
    ensures MaxId(t) == 0 || exists r :: r in t && r.id == MaxId(t)
  {
    if t == [] {
    } else {
      MaxIdIsMax(t[1..]);
      assert t == [t[0]] + t[1..];
      if MaxId(t) != t[0].id {
        var r :| r in t[1..] && r.id == MaxId(t[1..]);
        assert r in t;
      } else {
        assert t[0] in t;
      }
    }
  }

  lemma MaxIdUnique(t: seq<Row>, m: nat)
    requires forall r :: r in t ==> r.id <= m
    requires m == 0 || exists r :: r in t && r.id == m
    ensures MaxId(t) == m
  {
    MaxIdIsMax(t);
  }

  lemma MaxIdAppend(a: seq<Row>, b: seq<Row>)
    ensures MaxId(a + b) == Max(MaxId(a), MaxId(b))
  {
    MaxIdIsMax(a);
    MaxIdIsMax(b);
    MaxIdUnique(a + b, Max(MaxId(a), MaxId(b)));
  }

  lemma {:induction false} SelectAppend(a: seq<Row>, b: seq<Row>, p: Row -> bool)
    ensures Select(a + b, p) == Select(a, p) + Select(b, p)
  {
    if a == [] {
      assert a + b == b;
    } else {
      assert (a + b)[1..] == a[1..] + b;
      SelectAppend(a[1..], b, p);
    }
  }

  /** The chain, application and address of a row are unique, disabled rows included. */
  predicate Taken(col: Collation, t: Table, appId: nat, chain: string, address: string) {
    exists r :: r in t && r.appId == appId && SqlEq(col, r.chain, chain) && SqlEq(col, r.address, address)
  }

  function Disable(t: Table, id: nat): (r: Table)
    ensures |r| == |t|
  {
    seq(|t|, i requires 0 <= i < |t| => if t[i].id == id then t[i].(enabled := false) else t[i])
  }

  /** The table with a row put at the place of its id. */
  function Commit(t: Table, row: Row): (r: Table)
    ensures |r| == |t| + 1
    ensures forall x :: x in r <==> x in t || x == row
  {
    if t == [] then [row]
    else if row.id < t[0].id then [row] + t
    else
      var rest := Commit(t[1..], row);
      assert t == [t[0]] + t[1..];
      [t[0]] + rest
  }

  lemma SortedCons(x: Row, t: Table)
    requires Sorted(t) && 0 < x.id && (t != [] ==> x.id < t[0].id)
    ensures Sorted([x] + t)
  {
  }

  lemma {:induction false} CommitSorted(t: Table, row: Row)
    requires Sorted(t) && 0 < row.id && forall r :: r in t ==> r.id != row.id
    ensures Sorted(Commit(t, row))
  {
    if t == [] {
    } else if row.id < t[0].id {
      SortedCons(row, t);
    } else {
      var rest := Commit(t[1..], row);
      CommitSorted(t[1..], row);
      assert t[0] in t;
      assert rest[0] in t[1..] || rest[0] == row;
      SortedCons(t[0], rest);
    }
  }

  /** The keys of new rows collide neither with the table nor with one another. */
  predicate Insertable(col: Collation, t: Table, appId: nat, chain: string, addresses: seq<string>) {
    && (forall i :: 0 <= i < |addresses| ==> !Taken(col, t, appId, chain, addresses[i]))
    && (forall i, j :: 0 <= i < j < |addresses| ==> !SqlEq(col, addresses[i], addresses[j]))
  }

  /** The application has a row for the address on the chain. */
  predicate HasKey(t: Table, appId: nat, chain: string, address: string) {
    exists r :: r in t && r.appId == appId && r.chain == chain && r.address == address
  }

  /** It has one for some spelling of them. */
  predicate HasKeyAnyCase(t: Table, appId: nat, chain: string, address: string) {
    exists r :: r in t && r.appId == appId && ToLower(r.chain) == ToLower(chain)
        && ToLower(r.address) == ToLower(address)
  }

  function LowerAll(addresses: seq<string>): seq<string> {
    seq(|addresses|, i requires 0 <= i < |addresses| => ToLower(addresses[i]))
  }

  /** Whatever the collation, what can be inserted is new, and what cannot clashes up to letter case. */
  lemma InsertableMeans(col: Collation, t: Table, appId: nat, chain: string, addresses: seq<string>)
    ensures Insertable(col, t, appId, chain, addresses) ==>
              NoDuplicates(addresses) && forall a :: a in addresses ==> !HasKey(t, appId, chain, a)
    ensures !Insertable(col, t, appId, chain, addresses) ==>
              || !NoDuplicates(LowerAll(addresses))
              || exists a :: a in addresses && HasKeyAnyCase(t, appId, chain, a)
  {
    if Insertable(col, t, appId, chain, addresses) {
      forall a | a in addresses ensures !HasKey(t, appId, chain, a) {
        assert !Taken(col, t, appId, chain, a);
      }
    } else if i :| 0 <= i < |addresses| && Taken(col, t, appId, chain, addresses[i]) {
      assert HasKeyAnyCase(t, appId, chain, addresses[i]);
    } else {
      var i, j :| 0 <= i < j < |addresses| && SqlEq(col, addresses[i], addresses[j]);
      assert LowerAll(addresses)[i] == LowerAll(addresses)[j];
    }
  }

  lemma DisableOnly(t: Table, id: nat)
    ensures forall r :: r in Disable(t, id) && r.id == id ==> !r.enabled
    ensures forall r: Row :: r.id != id ==> (r in Disable(t, id) <==> r in t)
  {
    forall r: Row | r.id != id && r in t ensures r in Disable(t, id) {
      var i :| 0 <= i < |t| && t[i] == r;
      assert Disable(t, id)[i] == r;
    }
  }

  /** Rows under consecutive ids. */
  function NewRows(firstId: nat, appId: nat, chain: string, addresses: seq<string>): (rows: seq<Row>)
    ensures |rows| == |addresses|
  {
    seq(|addresses|, i requires 0 <= i < |addresses| => Row(firstId + i, appId, chain, addresses[i], true))
  }

  class AddressStore {
    const collation: Collation
    var rows: Table
    var nextId: nat

    ghost predicate Valid()
      reads this
    {
      Sorted(rows) && forall r :: r in rows ==> r.id < nextId
    }

    constructor (collation: Collation)
      ensures Valid() && rows == [] && this.collation == collation
    {
      this.collation := collation;
      rows := [];
      nextId := 1;
    }

    /** Fails, changing nothing, when the unique key is already taken. */
    method Create(appId: nat, chain: string, address: string) returns (ok: bool, id: nat)
      requires Valid()
      modifies this
      ensures Valid()
      ensures ok == !Taken(collation, old(rows), appId, chain, address)
      ensures ok ==> !HasKey(old(rows), appId, chain, address)
      ensures !ok ==> HasKeyAnyCase(old(rows), appId, chain, address)
      ensures ok ==> forall r :: r in old(rows) ==> r.id < id
      ensures ok ==> rows == old(rows) + [Row(id, appId, chain, address, true)]
      ensures !ok ==> rows == old(rows)
    {
      id := 0;
      ok := !Taken(collation, rows, appId, chain, address);
      if ok {
        id := FirstId();
        rows := rows + [Row(id, appId, chain, address, true)];
        nextId := id + 1;
      }
    }

    /** One INSERT of several rows: all of them, or none when the database fails or any of their keys is taken, be it by
        another of them. */
    method BatchCreate(appId: nat, chain: string, addresses: seq<string>, dbUp: bool) returns (ok: bool)
      requires Valid()
      modifies this
      ensures Valid() && ok == (dbUp && Insertable(collation, old(rows), appId, chain, addresses))
      ensures ok ==> NoDuplicates(addresses) && forall a :: a in addresses ==> !HasKey(old(rows), appId, chain, a)
      ensures dbUp && !ok ==>
                || !NoDuplicates(LowerAll(addresses))
                || exists a :: a in addresses && HasKeyAnyCase(old(rows), appId, chain, a)
      ensures rows == old(rows) + if ok then NewRows(old(FirstId()), appId, chain, addresses) else []
      ensures FirstId() == old(FirstId()) + if ok then |addresses| else 0
    {
      ok := dbUp && Insertable(collation, rows, appId, chain, addresses);
      InsertableMeans(collation, rows, appId, chain, addresses);
      if ok {
        var id := FirstId();
        rows := rows + NewRows(id, appId, chain, addresses);
        nextId := id + |addresses|;
      }
    }

    function FirstId(): nat
      reads this
    {
      Max(nextId, 1)
    }

    method Delete(id: nat)
      requires Valid()
      modifies this
      ensures Valid() && rows == Disable(old(rows), id)
      ensures forall r :: r in rows && r.id == id ==> !r.enabled
      ensures forall r: Row :: r.id != id ==> (r in rows <==> r in old(rows))
    {
      rows := Disable(rows, id);
      DisableOnly(old(rows), id);
      forall r | r in rows ensures r.id < nextId {
        var i :| 0 <= i < |rows| && rows[i] == r;
        assert old(rows)[i] in old(rows);
      }
    }
  }

  /** A deleted address can never be watched again by the same application: its row keeps the unique key. */
  lemma DeletedStaysDeleted(col: Collation, t: Table, appId: nat, chain: string, address: string, id: nat)
    requires exists r :: r in t && r.id == id && r.appId == appId && r.chain == chain && r.address == address
    ensures Taken(col, Disable(t, id), appId, chain, address)
  {
    var r :| r in t && r.id == id && r.appId == appId && r.chain == chain && r.address == address;
    var i :| 0 <= i < |t| && t[i] == r;
    assert Disable(t, id)[i] == r.(enabled := false);
  }
}
