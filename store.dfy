/** The record store of `app/lib/db.server.ts`: one JSON document holding the array of all
    expenses. Every operation reads the whole array, transforms it, and writes the whole array
    back; here the document is the field `doc` of an `ExpenseStore`. */
module Store {
  import opened Common

  /** One stored record. Ids come from `Date.now()`; the amount is kept as a string. */
  datatype Expense = Expense(id: int, description: string, amount: string, category: string, date: string)

  /** The object handed to `addExpense`: the four fields, and an id only when the caller's
      object itself carries one. */
  datatype Draft = Draft(id: Option<int>, description: string, amount: string, category: string, date: string)

  /** The object handed to `updateExpense`: any subset of a record's fields. */
  datatype Patch = Patch(
    id: Option<int>, description: Option<string>, amount: Option<string>,
    category: Option<string>, date: Option<string>)

  function Override<T>(base: T, o: Option<T>): T
  {
    if o.Some? then o.value else base
  }

  /** `{ id: now, ...draft }`: the clock value, unless the draft has its own id, which the
      spread writes over it. */
  function Stamp(d: Draft, now: int): Expense
  {
    Expense(Override(now, d.id), d.description, d.amount, d.category, d.date)
  }

  /** `{ ...e, ...data }`: every field the patch carries wins. */
  function Merge(e: Expense, p: Patch): Expense
  {
    Expense(
      Override(e.id, p.id), Override(e.description, p.description), Override(e.amount, p.amount),
      Override(e.category, p.category), Override(e.date, p.date))
  }

  predicate HasId(s: seq<Expense>, id: int)
  {
    exists i :: 0 <= i < |s| && s[i].id == id
  }

  /** No two records share an id. The source relies on this without enforcing it. */
  predicate UniqueIds(s: seq<Expense>)
  {
    forall i, j :: 0 <= i < j < |s| ==> s[i].id != s[j].id
  }

  /** The position where `find(e => e.id === id)` stops: the first record with that id. */
  function FirstIndex(s: seq<Expense>, id: int): (r: Option<nat>)
    ensures r.Some? ==> r.value < |s| && s[r.value].id == id
    ensures r.Some? ==> forall j :: 0 <= j < r.value ==> s[j].id != id
    ensures r.None? <==> !HasId(s, id)
  {
    if s == [] then None
    else if s[0].id == id then Some(0)
    else match FirstIndex(s[1..], id)
      case None => (assert forall j :: 1 <= j < |s| ==> s[j] == s[1..][j - 1]; None)
      case Some(k) => Some(k + 1)
  }

  /** `expenses.find(e => e.id === id)`. */
  function FindById(s: seq<Expense>, id: int): Option<Expense>
  {
    match FirstIndex(s, id)
    case None => None
    case Some(k) => Some(s[k])
  }

  /** `expenses.map(e => e.id === id ? { ...e, ...data } : e)`. */
  function UpdateAll(s: seq<Expense>, id: int, p: Patch): (r: seq<Expense>)
    ensures |r| == |s|
    ensures forall i :: 0 <= i < |s| ==> r[i] == if s[i].id == id then Merge(s[i], p) else s[i]
  {
    if s == [] then []
    else [if s[0].id == id then Merge(s[0], p) else s[0]] + UpdateAll(s[1..], id, p)
  }

  /** `expenses.filter(e => e.id !== id)`. */
  function Without(s: seq<Expense>, id: int): seq<Expense>
  {
    Filter(s, (e: Expense) => e.id != id)
  }

  /** The store: the document's array, read and replaced whole by every operation. */
  class ExpenseStore {
    var doc: seq<Expense>

    constructor (initial: seq<Expense>)
      ensures doc == initial
    {
      doc := initial;
    }

    /** `getExpenses`: the whole array as stored. */
    method GetExpenses() returns (all: seq<Expense>)
      ensures all == doc
    {
      all := doc;
    }

    /** `addExpense`: stamp the draft with the clock value `now`, push it, write back. */
    method AddExpense(draft: Draft, now: int) returns (created: Expense)
      modifies this
      ensures created == Stamp(draft, now)
      ensures doc == old(doc) + [created]
    {
      var expenses := GetExpenses();
      created := Stamp(draft, now);
      expenses := expenses + [created];
      doc := expenses;
    }

    /** `getExpenseById`: the first record with that id, or nothing. */
    method GetExpenseById(id: int) returns (found: Option<Expense>)
      ensures found.None? <==> !HasId(doc, id)
      ensures found.Some? ==> exists k :: 0 <= k < |doc| && doc[k] == found.value && found.value.id == id
                                && forall j :: 0 <= j < k ==> doc[j].id != id
    {
      var expenses := GetExpenses();
      found := FindById(expenses, id);
    }

    /** `updateExpense`: merge `data` into every record with that id, write back. */
    method UpdateExpense(id: int, data: Patch)
      modifies this
      ensures doc == UpdateAll(old(doc), id, data)
    {
      var expenses := GetExpenses();
      doc := UpdateAll(expenses, id, data);
    }

    /** `deleteExpense`: drop every record with that id, write back. */
    method DeleteExpense(id: int)
      modifies this
      ensures doc == Without(old(doc), id)
    {
      var expenses := GetExpenses();
      doc := Without(expenses, id);
    }
  }

  /** The new record carries the clock value as id unless the draft brought its own, and
      otherwise the draft's fields. */
  lemma StampIds(d: Draft, now: int)
    ensures Stamp(d, now).id == (if d.id.Some? then d.id.value else now)
    ensures Stamp(d, now).description == d.description && Stamp(d, now).amount == d.amount
    ensures Stamp(d, now).category == d.category && Stamp(d, now).date == d.date
  {
  }

  /** With a clock value no stored record has, adding keeps ids unique. */
  lemma AddKeepsIdsUnique(s: seq<Expense>, r: Expense)
    requires UniqueIds(s) && !HasId(s, r.id)
    ensures UniqueIds(s + [r])
  {
    var t := s + [r];
    forall i, j | 0 <= i < j < |t|
      ensures t[i].id != t[j].id
    {
      if j == |s| {
        assert t[i] == s[i];
      } else {
        assert t[i] == s[i] && t[j] == s[j];
      }
    }
  }

  /** Two adds in the same clock tick, from drafts without ids, give two records with one id. */
  lemma SameTickCollides(s: seq<Expense>, d1: Draft, d2: Draft, now: int)
    requires d1.id.None? && d2.id.None?
    ensures !UniqueIds(s + [Stamp(d1, now)] + [Stamp(d2, now)])
  {
    var t := s + [Stamp(d1, now)] + [Stamp(d2, now)];
    assert t[|s|].id == now && t[|s| + 1].id == now;
  }

  /** A record added with a fresh id is found again by that id. */
  lemma {:induction false} AddThenFind(s: seq<Expense>, r: Expense)
    requires !HasId(s, r.id)
    ensures FindById(s + [r], r.id) == Some(r)
  {
    var t := s + [r];
    assert t[|s|] == r;
    assert forall j :: 0 <= j < |s| ==> t[j] == s[j];
  }

  /** Deleting a record just added with a fresh id gives back the store before the add. */
  lemma AddThenDelete(s: seq<Expense>, r: Expense)
    requires !HasId(s, r.id)
    ensures Without(s + [r], r.id) == s
  {
    var p := (e: Expense) => e.id != r.id;
    FilterAppend(s, [r], p);
    forall e | e in s
      ensures p(e)
    {
      var i :| 0 <= i < |s| && s[i] == e;
    }
    FilterKeepsAll(s, p);
    assert Filter([r], p) == [];
  }

  /** `find` returns the first record with the id, and nothing exactly when there is none. */
  lemma FindByIdFirst(s: seq<Expense>, id: int)
    ensures FindById(s, id).None? <==> !HasId(s, id)
    ensures FindById(s, id).Some? ==>
              exists k :: 0 <= k < |s| && s[k] == FindById(s, id).value && s[k].id == id
                          && forall j :: 0 <= j < k ==> s[j].id != id
  {
  }

  /** Updating an id that no record has writes back the array unchanged. */
  lemma UpdateAbsentIsNoOp(s: seq<Expense>, id: int, p: Patch)
    requires !HasId(s, id)
    ensures UpdateAll(s, id, p) == s
  {
  }

  /** Merging the same patch twice is merging it once. */
  lemma MergeIdempotent(e: Expense, p: Patch)
    ensures Merge(Merge(e, p), p) == Merge(e, p)
  {
  }

  /** Repeating an update changes nothing more: a patch that keeps the id leaves each matched
      record merged once, and a patch that changes the id leaves no record to match. */
  lemma UpdateIdempotent(s: seq<Expense>, id: int, p: Patch)
    ensures UpdateAll(UpdateAll(s, id, p), id, p) == UpdateAll(s, id, p)
  {
    var once := UpdateAll(s, id, p);
    var twice := UpdateAll(once, id, p);
    forall i | 0 <= i < |s|
      ensures twice[i] == once[i]
    {
      MergeIdempotent(s[i], p);
    }
  }

  /** An update that leaves ids alone keeps them unique. */
  lemma UpdateKeepsIdsUnique(s: seq<Expense>, id: int, p: Patch)
    requires UniqueIds(s)
    requires p.id.None? || p.id.value == id
    ensures UniqueIds(UpdateAll(s, id, p))
  {
    var r := UpdateAll(s, id, p);
    assert forall i :: 0 <= i < |s| ==> r[i].id == s[i].id;
  }

  /** An update whose patch moves a record onto an id another record already has breaks
      uniqueness: nothing in the update guards against it. */
  lemma UpdateCanDuplicateIds(a: Expense, b: Expense, v: Option<string>)
    requires a.id != b.id
    ensures !UniqueIds(UpdateAll([a, b], a.id, Patch(Some(b.id), v, None, None, None)))
  {
    var r := UpdateAll([a, b], a.id, Patch(Some(b.id), v, None, None, None));
    assert r[0].id == b.id && r[1] == b;
  }

  /** Delete keeps exactly the records with another id, every copy of each, in their original
      order. */
  lemma DeleteKeepsOthersInOrder(s: seq<Expense>, id: int)
    ensures forall e :: e in Without(s, id) <==> e in s && e.id != id
    ensures forall e :: multiset(Without(s, id))[e] == if e.id != id then multiset(s)[e] else 0
    ensures IsSubsequence(Without(s, id), s)
  {
    FilterIsSubsequence(s, (e: Expense) => e.id != id);
    forall e
      ensures multiset(Without(s, id))[e] == if e.id != id then multiset(s)[e] else 0
    {
      FilterCount(s, (e: Expense) => e.id != id, e);
    }
  }

  /** After a delete, no record with that id is left to find. */
  lemma DeleteThenFindNone(s: seq<Expense>, id: int)
    ensures FindById(Without(s, id), id) == None
  {
    var r := Without(s, id);
    forall i | 0 <= i < |r|
      ensures r[i].id != id
    {
      assert r[i] in r;
    }
  }

  /** Deleting an id that no record has writes back the array unchanged. */
  lemma DeleteAbsentIsNoOp(s: seq<Expense>, id: int)
    requires !HasId(s, id)
    ensures Without(s, id) == s
  {
    var p := (e: Expense) => e.id != id;
    forall e | e in s
      ensures p(e)
    {
      var i :| 0 <= i < |s| && s[i] == e;
    }
    FilterKeepsAll(s, p);
  }

  /** Deleting twice is deleting once. */
  lemma DeleteIdempotent(s: seq<Expense>, id: int)
    ensures Without(Without(s, id), id) == Without(s, id)
  {
    FilterIdempotent(s, (e: Expense) => e.id != id);
  }

  /** Deleting never breaks id uniqueness. */
  lemma {:induction false} DeleteKeepsIdsUnique(s: seq<Expense>, id: int)
    requires UniqueIds(s)
    ensures UniqueIds(Without(s, id))
  {
    if s != [] {
      DeleteKeepsIdsUnique(s[1..], id);
      var rest := Without(s[1..], id);
      if s[0].id != id {
        assert Without(s, id) == [s[0]] + rest;
        forall j | 0 <= j < |rest|
          ensures s[0].id != rest[j].id
        {
          assert rest[j] in s[1..];
          var k :| 0 <= k < |s[1..]| && s[1..][k] == rest[j];
          assert s[k + 1] == rest[j];
        }
      } else {
        assert Without(s, id) == rest;
      }
    }
  }
}
