/**
 * Growing the wide table from fetched matches (`populate_db`).
 *
 * At most the first 3000 match ids are fetched; every successful response
 * goes through the extraction, the extracted row lists become a table
 * under the version 1 schema, and that table is merged into the existing
 * one with `union` followed by `distinct`. Fetching is left to the
 * caller: the model receives one response per match id.
 */
module Ingestion {
  import opened Seqs
  import opened Schema
  import opened Extraction

  /** How many match ids one round fetches (`m_ids[:3000]`). */
  const MatchLimit: nat := 3000

  /** The response for one match id: a match record, or any status other than 200. */
  datatype Response = Fetched(m: Match) | NotOk

  /** `df.union(df_to_add).distinct()`: both tables' rows, each kept once. */
  function Merge(df: seq<WideRow>, toAdd: seq<WideRow>): (r: seq<WideRow>)
    ensures NoDuplicates(r)
    ensures forall w :: w in r <==> w in df || w in toAdd
  {
    Distinct(df + toAdd)
  }

  /**
   * Merging the same rows twice changes nothing the second time. The
   * equality is positional and so relies on the model's `distinct`
   * keeping first occurrences; `MergeIdempotentRows` states it up to order.
   */
  lemma MergeIdempotent(df: seq<WideRow>, toAdd: seq<WideRow>)
    ensures Merge(Merge(df, toAdd), toAdd) == Merge(df, toAdd)
  {
    DistinctAbsorbs(Merge(df, toAdd), toAdd);
  }

  /**
   * Merging rows that are all present already leaves a duplicate-free table
   * as it was, position by position under the model's `distinct`;
   * `MergeKnownRowsAnyOrder` states it up to order.
   */
  lemma MergeKnownRows(df: seq<WideRow>, toAdd: seq<WideRow>)
    requires NoDuplicates(df)
    requires forall w :: w in toAdd ==> w in df
    ensures Merge(df, toAdd) == df
  {
    DistinctAbsorbs(df, toAdd);
  }

  /**
   * Merging the same rows twice yields the same rows, whatever order
   * `distinct` puts them in: the claim rests only on `Merge`'s contract.
   */
  lemma MergeIdempotentRows(df: seq<WideRow>, toAdd: seq<WideRow>)
    ensures multiset(Merge(Merge(df, toAdd), toAdd)) == multiset(Merge(df, toAdd))
  {
    SameElements(Merge(Merge(df, toAdd), toAdd), Merge(df, toAdd));
  }

  /**
   * Merging rows that are all present already gives back the rows of a
   * duplicate-free table, whatever order `distinct` puts them in.
   */
  lemma MergeKnownRowsAnyOrder(df: seq<WideRow>, toAdd: seq<WideRow>)
    requires NoDuplicates(df)
    requires forall w :: w in toAdd ==> w in df
    ensures multiset(Merge(df, toAdd)) == multiset(df)
  {
    SameElements(Merge(df, toAdd), df);
  }

  /**
   * Duplicates are detected on whole rows: two different rows of the same
   * match both stay.
   */
  lemma MergeKeepsSameMatchRows(w1: WideRow, w2: WideRow)
    requires w1.matchId == w2.matchId && w1 != w2
    ensures |Merge([w1], [w2])| == 2
  {
    var r := Merge([w1], [w2]);
    assert w1 in r && w2 in r;
  }

  /** What the extraction makes of one response; a failed request yields no row. */
  function Outcome(x: Response): Extraction
  {
    if x.Fetched? then Extract(x.m) else Skipped
  }

  /** The outcome of every response, in order. */
  function Outcomes(responses: seq<Response>): (r: seq<Extraction>)
    ensures |r| == |responses|
    ensures forall i :: 0 <= i < |responses| ==> r[i] == Outcome(responses[i])
  {
    seq(|responses|, i requires 0 <= i < |responses| => Outcome(responses[i]))
  }

  /**
   * The loop over the responses, given the outcome of each: the row lists
   * of the extracted matches in order, or None when an extraction raises
   * because no participant is blue (the exception leaves `populate_db`).
   */
  function Collect(outcomes: seq<Extraction>): Option<seq<seq<Cell>>> {
    if outcomes == [] then Some([])
    else
      var head := outcomes[0];
      var rest := Collect(outcomes[1..]);
      if head == UnboundBlueWin || rest.None? then None
      else if head.Extracted? then Some([head.row] + rest.value)
      else Some(rest.value)
  }

  /** The loop fails exactly when some extraction raises. */
  lemma {:induction false} CollectFails(outcomes: seq<Extraction>)
    ensures Collect(outcomes).None? <==> UnboundBlueWin in outcomes
  {
    if outcomes != [] {
      CollectFails(outcomes[1..]);
      assert outcomes == [outcomes[0]] + outcomes[1..];
    }
  }

  /** When the loop does not fail, its rows are exactly the extracted row lists. */
  lemma {:induction false} CollectRows(outcomes: seq<Extraction>, row: seq<Cell>)
    requires Collect(outcomes).Some?
    ensures row in Collect(outcomes).value <==> Extracted(row) in outcomes
  {
    if outcomes != [] {
      CollectRows(outcomes[1..], row);
      assert outcomes == [outcomes[0]] + outcomes[1..];
    }
  }

  /**
   * `spark.createDataFrame(rows_to_add, schema)`: the table of the row
   * lists, or None when one of them does not fit the schema.
   */
  function Load(rows: seq<seq<Cell>>): (r: Option<seq<WideRow>>)
    ensures r.Some? <==> forall i :: 0 <= i < |rows| ==> FitsSchema(rows[i])
    ensures r.Some? ==> |r.value| == |rows| && forall i :: 0 <= i < |rows| ==> Flatten(r.value[i]) == rows[i]
  {
    if rows == [] then Some([])
    else
      var head, rest := FromCells(rows[0]), Load(rows[1..]);
      assert forall i :: 1 <= i < |rows| ==> rows[i] == rows[1..][i - 1];
      if head.None? || rest.None? then None
      else Some([head.value] + rest.value)
  }

  /** The responses for the first 3000 match ids. */
  function Batch(responses: seq<Response>): (r: seq<Response>)
    ensures |r| <= MatchLimit && |r| <= |responses|
    ensures forall i :: 0 <= i < |responses| && i < MatchLimit ==> i < |r| && r[i] == responses[i]
    ensures forall i :: 0 <= i < |r| ==> r[i] == responses[i]
  {
    if |responses| <= MatchLimit then responses else responses[..MatchLimit]
  }

  lemma FlattenInjective(a: WideRow, b: WideRow)
    requires Flatten(a) == Flatten(b)
    ensures a == b
  {
    FlattenRoundTrip(a);
    FlattenRoundTrip(b);
  }

  /** One round of `populate_db` on the responses for the fetched match ids. */
  function Populate(df: seq<WideRow>, responses: seq<Response>): Option<seq<WideRow>> {
    match Collect(Outcomes(Batch(responses)))
    case None => None
    case Some(rows) =>
      match Load(rows)
      case None => None
      case Some(toAdd) => Some(Merge(df, toAdd))
  }

  /** Some fetched match among the first 3000 raises in the extraction. */
  predicate Raises(responses: seq<Response>) {
    exists i :: 0 <= i < |responses| && i < MatchLimit && Outcome(responses[i]) == UnboundBlueWin
  }

  /** Some fetched match among the first 3000 yields a row that does not fit the schema. */
  predicate Misfits(responses: seq<Response>) {
    exists i :: 0 <= i < |responses| && i < MatchLimit && Outcome(responses[i]).Extracted?
                && !FitsSchema(Outcome(responses[i]).row)
  }

  /** A round fails exactly when some match raises or yields a row the schema rejects. */
  lemma PopulateFails(df: seq<WideRow>, responses: seq<Response>)
    ensures Populate(df, responses).None? <==> Raises(responses) || Misfits(responses)
  {
    var xs := Outcomes(Batch(responses));
    CollectFails(xs);
    if Raises(responses) {
      var i :| 0 <= i < |responses| && i < MatchLimit && Outcome(responses[i]) == UnboundBlueWin;
      assert xs[i] == UnboundBlueWin;
    }
    if Collect(xs).None? {
      var i :| 0 <= i < |xs| && xs[i] == UnboundBlueWin;
      assert Outcome(responses[i]) == UnboundBlueWin;
    } else {
      LoadFails(xs, responses);
    }
  }

  lemma LoadFails(xs: seq<Extraction>, responses: seq<Response>)
    requires xs == Outcomes(Batch(responses))
    requires Collect(xs).Some?
    ensures Load(Collect(xs).value).None? <==> Misfits(responses)
  {
    if Misfits(responses) {
      var i :| 0 <= i < |responses| && i < MatchLimit && Outcome(responses[i]).Extracted?
               && !FitsSchema(Outcome(responses[i]).row);
      var row := Outcome(responses[i]).row;
      assert xs[i] == Extracted(row);
      CollectRows(xs, row);
      LoadRejects(Collect(xs).value, row);
    }
    if Load(Collect(xs).value).None? {
      RejectedMisfit(xs, responses);
    }
  }

  /** One row list the schema rejects makes the whole load fail. */
  lemma LoadRejects(rows: seq<seq<Cell>>, row: seq<Cell>)
    requires row in rows && !FitsSchema(row)
    ensures Load(rows).None?
  {
    var k :| 0 <= k < |rows| && rows[k] == row;
  }

  lemma RejectedMisfit(xs: seq<Extraction>, responses: seq<Response>)
    requires xs == Outcomes(Batch(responses))
    requires Collect(xs).Some?
    requires Load(Collect(xs).value).None?
    ensures Misfits(responses)
  {
    var rows := Collect(xs).value;
    var k :| 0 <= k < |rows| && !FitsSchema(rows[k]);
    var row := rows[k];
    CollectRows(xs, row);
    var i :| 0 <= i < |xs| && xs[i] == Extracted(row);
    assert i < |responses| && i < MatchLimit && Outcome(responses[i]) == Extracted(row);
  }

  /**
   * A round that completes keeps every old row, holds no duplicate, and
   * every new row is the loaded form of a row list extracted from one of
   * the first 3000 responses.
   */
  lemma PopulateContents(df: seq<WideRow>, responses: seq<Response>)
    requires Populate(df, responses).Some?
    ensures NoDuplicates(Populate(df, responses).value)
    ensures forall w :: w in df ==> w in Populate(df, responses).value
    ensures forall w :: w in Populate(df, responses).value ==>
      w in df || exists i :: 0 <= i < |responses| && i < MatchLimit && Outcome(responses[i]) == Extracted(Flatten(w))
  {
    forall w | w in Populate(df, responses).value && w !in df
      ensures exists i :: 0 <= i < |responses| && i < MatchLimit && Outcome(responses[i]) == Extracted(Flatten(w))
    {
      NewRowSource(df, responses, w);
    }
  }

  lemma NewRowSource(df: seq<WideRow>, responses: seq<Response>, w: WideRow)
    requires Populate(df, responses).Some?
    requires w in Populate(df, responses).value && w !in df
    ensures exists i :: 0 <= i < |responses| && i < MatchLimit && Outcome(responses[i]) == Extracted(Flatten(w))
  {
    var xs := Outcomes(Batch(responses));
    var rows := Collect(xs).value;
    assert w in Load(rows).value;
    LoadedRowSource(rows, w);
    CollectRows(xs, Flatten(w));
    var i :| 0 <= i < |xs| && xs[i] == Extracted(Flatten(w));
    assert i < |responses| && i < MatchLimit && Outcome(responses[i]) == Extracted(Flatten(w));
  }

  /** Every loaded row is the loaded form of one of the row lists. */
  lemma LoadedRowSource(rows: seq<seq<Cell>>, w: WideRow)
    requires Load(rows).Some? && w in Load(rows).value
    ensures Flatten(w) in rows
  {
    var k :| 0 <= k < |Load(rows).value| && Load(rows).value[k] == w;
    assert Flatten(w) == rows[k];
  }

  /**
   * A round that completes adds the row of every match among the first
   * 3000 responses that was extracted.
   */
  lemma PopulateAddsExtracted(df: seq<WideRow>, responses: seq<Response>, i: nat, w: WideRow)
    requires Populate(df, responses).Some?
    requires i < |responses| && i < MatchLimit
    requires Outcome(responses[i]) == Extracted(Flatten(w))
    ensures w in Populate(df, responses).value
  {
    var xs := Outcomes(Batch(responses));
    var rows := Collect(xs).value;
    var toAdd := Load(rows).value;
    assert xs[i] == Extracted(Flatten(w));
    CollectRows(xs, Flatten(w));
    var k :| 0 <= k < |rows| && rows[k] == Flatten(w);
    assert Flatten(toAdd[k]) == Flatten(w);
    FlattenInjective(toAdd[k], w);
    assert toAdd[k] in toAdd;
  }
}
