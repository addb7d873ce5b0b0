/**
 Batch rescoring of a tenant's leads: pages of 50 in id order, each page starting after the last id of the
 one before, until a page comes back empty. The lead table does not change while it runs.
 */
module LeadBatch {
  import opened Common

  type LeadId = int

  const PAGE := 50

  /** The tenant's lead ids in ascending order. */
  predicate Sorted(table: seq<LeadId>) { forall i, j | 0 <= i < j < |table| :: table[i] < table[j] }

  function Take(ids: seq<LeadId>): seq<LeadId> { if |ids| <= PAGE then ids else ids[..PAGE] }

  /** findMany with `take`, a cursor row and `skip: 1` after it: the next ids in order. */
  function FindMany(table: seq<LeadId>, cursor: Option<LeadId>): seq<LeadId> {
    if cursor.None? then Take(table)
    else if table == [] then []
    else if table[0] == cursor.value then Take(table[1..])
    else FindMany(table[1..], cursor)
  }

  lemma {:induction false} PageAfter(table: seq<LeadId>, i: nat)
    requires Sorted(table) && i < |table|
    ensures FindMany(table, Some(table[i])) == Take(table[i + 1..])
  {
    if i > 0 {
      assert table[1..][i - 1] == table[i] && table[1..][i..] == table[i + 1..];
      PageAfter(table[1..], i - 1);
    }
  }

  lemma TakeRest(table: seq<LeadId>, i: nat)
    requires i <= |table|
    ensures Take(table[i..]) == table[i..Min(i + PAGE, |table|)]
  {
  }

  /** The query made after `processed` leads returns the next up to 50 of them. */
  lemma NextPage(table: seq<LeadId>, processed: nat)
    requires Sorted(table) && processed <= |table|
    ensures FindMany(table, if processed == 0 then None else Some(table[processed - 1]))
            == table[processed..Min(processed + PAGE, |table|)]
  {
    hide Take;
    if processed > 0 { PageAfter(table, processed - 1); } else { assert table[0..] == table; }
    TakeRest(table, processed);
  }

  /** The number of full or partial pages. */
  function Pages(n: nat): (p: nat)
    ensures PAGE * p < n + PAGE && n <= PAGE * p
  {
    (n + PAGE - 1) / PAGE
  }

  lemma PagesIsUnique(n: nat, p: nat)
    requires PAGE * p < n + PAGE && n <= PAGE * p
    ensures p == Pages(n)
  {
  }

  class LeadScoringService {
    var scored: seq<LeadId>   // computeAndCache calls, in order
    var queries: nat

    constructor ()
      ensures scored == [] && queries == 0
    {
      scored, queries := [], 0;
    }

    /** Terminates having scored every lead exactly once in id order, with one query per page and one more
        that finds nothing left. */
    method BatchRecompute(table: seq<LeadId>)
      requires Sorted(table)
      modifies this
      ensures scored == old(scored) + table
      ensures queries == old(queries) + (|table| + 49) / 50 + 1
    {
      var cursor: Option<LeadId> := None;
      var processed := 0;
      var hasMore := true;
      ghost var pages := 0;
      hide FindMany, Take, Sorted, Pages;
      while hasMore
        invariant processed == Min(PAGE * pages, |table|) && PAGE * pages < |table| + PAGE
        invariant cursor == if processed == 0 then None else Some(table[processed - 1])
        invariant scored == old(scored) + table[..processed]
        invariant hasMore ==> queries == old(queries) + pages
        invariant !hasMore ==> processed == |table| && queries == old(queries) + pages + 1
        decreases hasMore, |table| - processed
      {
        NextPage(table, processed);
        var leads := FindMany(table, cursor);
        queries := queries + 1;
        if |leads| == 0 {
          hasMore := false;
        } else {
          pages := pages + 1;
          assert table[..processed] + leads == table[..processed + |leads|];
          scored := scored + leads;
          processed := processed + |leads|;
          cursor := Some(leads[|leads| - 1]);
        }
      }
      assert table[..|table|] == table;
      PagesIsUnique(|table|, pages);
    }
  }
}
