/**
 * `create_tables`, as both import programs write it: the bundled schema file is
 * split at every `;`, each piece is trimmed, blank pieces are dropped, and the
 * statements are executed one by one, the first failure ending the run.
 */
module Schema {
  import opened Wrappers
  import opened Text

  /** The trimmed, non-blank pieces, in order. */
  function KeepStatements(pieces: seq<string>): (stmts: seq<string>)
    ensures |stmts| <= |pieces|
    ensures forall s :: s in stmts ==> s != [] && Trim(s) == s
  {
    if pieces == [] then []
    else
      var t := Trim(pieces[0]);
      var rest := KeepStatements(pieces[1..]);
      if t == [] then rest
      else
        TrimIdempotent(pieces[0]);
        assert forall s :: s in [t] + rest ==> s == t || s in rest;
        [t] + rest
  }

  /** The kept statements of consecutive runs of pieces are the runs' kept statements, one after the other. */
  lemma {:induction false} KeepStatementsConcat(a: seq<string>, b: seq<string>)
    ensures KeepStatements(a + b) == KeepStatements(a) + KeepStatements(b)
  {
    if a == [] {
      assert a + b == b;
    } else {
      assert (a + b)[0] == a[0];
      assert (a + b)[1..] == a[1..] + b;
      KeepStatementsConcat(a[1..], b);
    }
  }

  /** No pieces give no statement; one piece contributes its trimmed text exactly when that is not empty. */
  lemma KeepStatementsOfOne(p: string)
    ensures KeepStatements([]) == []
    ensures KeepStatements([p]) == if Trim(p) == [] then [] else [Trim(p)]
  {
    assert [p][1..] == [];
  }

  /** `schema.split(';').map(str::trim).filter(|s| !s.is_empty())`. */
  function SchemaStatements(schema: string): (stmts: seq<string>)
    ensures forall s :: s in stmts ==> s != [] && Trim(s) == s && ';' !in s
  {
    var pieces := Split(schema, ';');
    KeepSeparatorFree(pieces);
    KeepStatements(pieces)
  }

  /**
   * The statements of any schema text, read off its first `;`: text without a
   * `;` is one piece, and text `a;b` with `a` free of `;` gives a's trimmed text
   * (when not empty) followed by the statements of `b`.
   */
  lemma SchemaStatementsSplit(a: string, b: string)
    requires ';' !in a
    ensures SchemaStatements(a) == if Trim(a) == [] then [] else [Trim(a)]
    ensures SchemaStatements(a + ";" + b) == (if Trim(a) == [] then [] else [Trim(a)]) + SchemaStatements(b)
  {
    SplitNoSep(a, ';');
    KeepStatementsOfOne(a);
    assert a + ";" + b == a + [';'] + b;
    SplitAtSep(a, b, ';');
    KeepStatementsConcat([a], Split(b, ';'));
  }

  /** Trimming never introduces a separator. */
  lemma {:induction false} KeepSeparatorFree(pieces: seq<string>)
    requires forall p :: p in pieces ==> ';' !in p
    ensures forall s :: s in KeepStatements(pieces) ==> ';' !in s
  {
    if pieces != [] {
      KeepSeparatorFree(pieces[1..]);
      TrimInside(pieces[0]);
    }
  }

  /** Every character of a trimmed string comes from the string. */
  lemma TrimInside(s: string)
    ensures forall c :: c in Trim(s) ==> c in s
  {
    var u := TrimStart(s);
    assert forall c :: c in TrimEnd(u) ==> c in u;
    assert forall c :: c in u ==> c in s;
  }

  /** Whitespace-only pieces, such as the text after the last `;`, contribute no statement. */
  lemma {:induction false} BlankPiecesDropped(pieces: seq<string>, blank: string)
    requires AllWhitespace(blank)
    ensures KeepStatements([blank] + pieces) == KeepStatements(pieces)
    ensures KeepStatements(pieces + [blank]) == KeepStatements(pieces)
  {
    TrimEmptyIffBlank(blank);
    assert ([blank] + pieces)[1..] == pieces;
    if pieces != [] {
      assert (pieces + [blank])[1..] == pieces[1..] + [blank];
      BlankPiecesDropped(pieces[1..], blank);
    } else {
      assert [blank][1..] == [];
    }
  }

  /** A schema written as `;`-terminated, trimmed statements splits back into exactly those statements. */
  lemma SchemaRoundTrip(stmts: seq<string>)
    requires forall s :: s in stmts ==> s != [] && Trim(s) == s && ';' !in s
    ensures SchemaStatements(Join(stmts + [""], ";")) == stmts
  {
    var pieces := stmts + [""];
    assert forall p :: p in pieces ==> ';' !in p;
    SplitJoin(pieces, ';');
    BlankPiecesDropped(stmts, "");
    KeptUnchanged(stmts);
  }

  lemma {:induction false} KeptUnchanged(stmts: seq<string>)
    requires forall s :: s in stmts ==> s != [] && Trim(s) == s
    ensures KeepStatements(stmts) == stmts
  {
    if stmts != [] {
      assert stmts[0] in stmts;
      assert forall s :: s in stmts[1..] ==> s in stmts;
      KeptUnchanged(stmts[1..]);
    }
  }

  // ---------------------------------------------------------------------------
  // Executing the statements
  // ---------------------------------------------------------------------------

  /** The outcome of `create_tables`: the statements sent, and the error that ended it, if any. */
  datatype Creation = Creation(sent: seq<string>, error: Option<string>)

  /** Every statement is accepted. */
  predicate AllAccepted(stmts: seq<string>, accepts: string -> bool) {
    forall k :: 0 <= k < |stmts| ==> accepts(stmts[k])
  }

  /**
   * Executes the statements in order against a database whose answer for each
   * statement is `accepts`; stops after the first refused one with
   * "Failed to execute: <sql>".
   */
  method ExecuteStatements(stmts: seq<string>, accepts: string -> bool) returns (c: Creation)
    ensures |c.sent| <= |stmts| && c.sent == stmts[..|c.sent|]
    ensures c.error.None? <==> AllAccepted(stmts, accepts)
    ensures c.error.None? ==> c.sent == stmts
    ensures c.error.Some? ==>
      (|c.sent| > 0 && !accepts(c.sent[|c.sent| - 1])
       && c.error.value == "Failed to execute: " + c.sent[|c.sent| - 1]
       && AllAccepted(c.sent[..|c.sent| - 1], accepts))
  {
    var i := 0;
    while i < |stmts|
      invariant 0 <= i <= |stmts|
      invariant AllAccepted(stmts[..i], accepts)
    {
      if !accepts(stmts[i]) {
        assert stmts[..i + 1][..i] == stmts[..i];
        return Creation(stmts[..i + 1], Some("Failed to execute: " + stmts[i]));
      }
      assert stmts[..i + 1][..i] == stmts[..i];
      i := i + 1;
    }
    assert stmts[..|stmts|] == stmts;
    return Creation(stmts, None);
  }

  /** `create_tables`: the statements of the schema text, executed in order. */
  method CreateTables(schema: string, accepts: string -> bool) returns (c: Creation)
    ensures var stmts := SchemaStatements(schema);
      && |c.sent| <= |stmts| && c.sent == stmts[..|c.sent|]
      && (c.error.None? <==> AllAccepted(stmts, accepts))
      && (c.error.None? ==> c.sent == stmts)
      && (c.error.Some? ==>
            |c.sent| > 0 && !accepts(c.sent[|c.sent| - 1])
            && c.error.value == "Failed to execute: " + c.sent[|c.sent| - 1]
            && AllAccepted(c.sent[..|c.sent| - 1], accepts))
  {
    c := ExecuteStatements(SchemaStatements(schema), accepts);
  }
}
