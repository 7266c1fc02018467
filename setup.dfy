/**
 * The schema step of the setup script: the schema text is cut at every
 * `;`, each piece trimmed, the empty ones dropped, and the rest run on the
 * connection one by one in file order.
 */
module Setup {
  import opened Wrappers
  import opened Text
  import opened Seqs

  /** `pieces.map(cmd => cmd.trim())`. */
  function TrimAll(pieces: seq<string>): (r: seq<string>)
    ensures |r| == |pieces|
    ensures forall k :: 0 <= k < |pieces| ==> r[k] == Trim(pieces[k])
  {
    seq(|pieces|, k requires 0 <= k < |pieces| => Trim(pieces[k]))
  }

  /** `cmd.length > 0`. */
  predicate NonEmpty(c: string) {
    |c| > 0
  }

  /**
   * The command list: the trimmed `;`-separated pieces of the schema that
   * are not empty, in file order. No command is empty, none contains `;`,
   * none starts or ends with whitespace, and every piece that is not blank
   * gives a command.
   */
  function Commands(schema: string): (r: seq<string>)
    ensures forall k :: 0 <= k < |r| ==> r[k] != ""
    ensures forall k :: 0 <= k < |r| ==> ';' !in r[k]
    ensures forall k :: 0 <= k < |r| ==> !IsSpace(r[k][0]) && !IsSpace(r[k][|r[k]| - 1])
    ensures Sublist(r, TrimAll(Split(schema, ';')))
    ensures forall k :: 0 <= k < |Split(schema, ';')| && Trim(Split(schema, ';')[k]) != "" ==>
              Trim(Split(schema, ';')[k]) in r
  {
    var pieces := Split(schema, ';');
    var trimmed := TrimAll(pieces);
    var r := Filter(NonEmpty, trimmed);
    FilterSublist(NonEmpty, trimmed);
    CommandsShape(pieces, trimmed, r);
    r
  }

  /** A command that piece `trimmed[j]` gives: not empty, no `;`, no whitespace at either end. */
  predicate WellCut(c: string) {
    c != "" && ';' !in c && !IsSpace(c[0]) && !IsSpace(c[|c| - 1])
  }

  lemma CommandsShape(pieces: seq<string>, trimmed: seq<string>, r: seq<string>)
    requires forall k :: 0 <= k < |pieces| ==> ';' !in pieces[k]
    requires trimmed == TrimAll(pieces)
    requires forall k :: 0 <= k < |r| ==> r[k] in trimmed && |r[k]| > 0
    ensures forall k :: 0 <= k < |r| ==> WellCut(r[k])
  {
    forall k | 0 <= k < |r| ensures WellCut(r[k]) {
      var j :| 0 <= j < |trimmed| && trimmed[j] == r[k];
      TrimIsSlice(pieces[j]);
    }
  }

  /** The trimmed text is a slice of the original, so holds no character the original lacks. */
  lemma TrimIsSlice(s: string)
    ensures forall ch :: ch in Trim(s) ==> ch in s
  {
    var a := LeadingSpaces(s);
    var r := Trim(s);
    assert s[a..a + |r|] == r;
    forall ch | ch in r ensures ch in s {
      var i :| 0 <= i < |r| && r[i] == ch;
      assert s[a + i] == ch;
    }
  }

  /**
   * A schema written as statements separated by `;`, none of them blank or
   * holding a `;`, optionally ending in a `;` followed by whitespace only,
   * gives back exactly the trimmed statements, in order.
   */
  lemma {:induction false} CommandsOfStatements(statements: seq<string>, tail: Option<string>)
    requires |statements| >= 1
    requires forall k :: 0 <= k < |statements| ==> ';' !in statements[k] && Trim(statements[k]) != ""
    requires tail.Some? ==> forall i :: 0 <= i < |tail.value| ==> IsSpace(tail.value[i])
    ensures Commands(if tail.Some? then Join(statements, ';') + ";" + tail.value else Join(statements, ';')) == TrimAll(statements)
  {
    var parts := statements + TailPieces(tail);
    var schema := if tail.Some? then Join(statements, ';') + ";" + tail.value else Join(statements, ';');
    assert schema == Join(parts, ';') by {
      if tail.Some? {
        JoinSnoc(statements, tail.value, ';');
      } else {
        assert parts == statements;
      }
    }
    BlankTailHasNoSeparator(tail);
    CommandsOfPieces(parts);
    KeptStatements(statements, tail);
  }

  /** Pieces free of `;`, joined by `;`, split back into themselves, so their commands are their non-empty trims. */
  lemma CommandsOfPieces(parts: seq<string>)
    requires |parts| >= 1
    requires forall k :: 0 <= k < |parts| ==> ';' !in parts[k]
    ensures Commands(Join(parts, ';')) == Filter(NonEmpty, TrimAll(parts))
  {
    SplitJoin(parts, ';');
  }

  /** Trimming keeps every non-blank statement and drops a blank tail. */
  lemma KeptStatements(statements: seq<string>, tail: Option<string>)
    requires forall k :: 0 <= k < |statements| ==> Trim(statements[k]) != ""
    requires tail.Some? ==> forall i :: 0 <= i < |tail.value| ==> IsSpace(tail.value[i])
    ensures Filter(NonEmpty, TrimAll(statements + TailPieces(tail))) == TrimAll(statements)
  {
    var extra := TailPieces(tail);
    TrimAllConcat(statements, extra);
    BlankTailDropped(tail);
    FilterConcat(NonEmpty, TrimAll(statements), TrimAll(extra));
    FilterKeepsAll(NonEmpty, TrimAll(statements));
    assert TrimAll(statements) + [] == TrimAll(statements);
  }

  /** The piece after the last `;`, when the schema ends in one. */
  function TailPieces(tail: Option<string>): (r: seq<string>)
    ensures tail.Some? ==> r == [tail.value]
    ensures tail.None? ==> r == []
  {
    if tail.Some? then [tail.value] else []
  }

  lemma BlankTailHasNoSeparator(tail: Option<string>)
    requires tail.Some? ==> forall i :: 0 <= i < |tail.value| ==> IsSpace(tail.value[i])
    ensures forall k :: 0 <= k < |TailPieces(tail)| ==> ';' !in TailPieces(tail)[k]
  {
    if tail.Some? {
      assert forall i :: 0 <= i < |tail.value| ==> tail.value[i] != ';';
    }
  }

  lemma TrimAllConcat(a: seq<string>, b: seq<string>)
    ensures TrimAll(a + b) == TrimAll(a) + TrimAll(b)
  {
  }

  lemma BlankTailDropped(tail: Option<string>)
    requires tail.Some? ==> forall i :: 0 <= i < |tail.value| ==> IsSpace(tail.value[i])
    ensures Filter(NonEmpty, TrimAll(TailPieces(tail))) == []
  {
    if tail.Some? {
      assert Trim(tail.value) == "";
      assert TrimAll([tail.value]) == [""];
    }
  }

  lemma {:induction false} JoinSnoc(parts: seq<string>, x: string, c: char)
    requires |parts| >= 1
    ensures Join(parts + [x], c) == Join(parts, c) + [c] + x
  {
    if |parts| > 1 {
      assert (parts + [x])[1..] == parts[1..] + [x];
      JoinSnoc(parts[1..], x, c);
    }
  }

  /** A database connection, seen through the statements it was asked to run. */
  class Connection {
    var log: seq<string>

    constructor ()
      ensures log == []
    {
      log := [];
    }

    /** `connection.query(command)`. */
    method Query(command: string)
      modifies this
      ensures log == old(log) + [command]
    {
      log := log + [command];
    }
  }

  /** The loop over the commands: each runs once, in file order. */
  method RunAll(connection: Connection, commands: seq<string>)
    modifies connection
    ensures connection.log == old(connection.log) + commands
  {
    for i := 0 to |commands|
      invariant connection.log == old(connection.log) + commands[..i]
    {
      assert commands[..i + 1] == commands[..i] + [commands[i]];
      connection.Query(commands[i]);
    }
    assert commands[..|commands|] == commands;
  }

  /** Applying the schema: its commands are run, and nothing else. */
  method RunSchema(connection: Connection, schema: string)
    modifies connection
    ensures connection.log == old(connection.log) + Commands(schema)
  {
    var commands := Commands(schema);
    RunAll(connection, commands);
  }
}
