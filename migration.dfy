/**
 * The migration runner script: it takes a migration file named on the command line, splits the
 * SQL text at every `;`, trims each piece and keeps the pieces that are non-empty and do not start
 * with `--`; each kept piece is then sent to the database as one statement.
 */
module Migration {
  import opened Js
  import opened Seqs

  /** `s.split(sep)` for a one-character separator. */
  function Split(s: string, sep: char): (parts: seq<string>)
    ensures |parts| >= 1
    decreases |s|
  {
    if s == [] then [""]
    else
      var init := Split(s[..|s| - 1], sep);
      var last := s[|s| - 1];
      if last == sep then init + [""]
      else init[..|init| - 1] + [init[|init| - 1] + [last]]
  }

  /** `parts.join(sep)` */
  function Join(parts: seq<string>, sep: char): string
    requires |parts| >= 1
  {
    if |parts| == 1 then parts[0] else Join(parts[..|parts| - 1], sep) + [sep] + parts[|parts| - 1]
  }

  /** Splitting loses nothing: joining the pieces with the separator gives the text back. */
  lemma {:induction false} JoinSplit(s: string, sep: char)
    ensures Join(Split(s, sep), sep) == s
    decreases |s|
  {
    if s != [] {
      var init := Split(s[..|s| - 1], sep);
      JoinSplit(s[..|s| - 1], sep);
      var last := s[|s| - 1];
      assert s == s[..|s| - 1] + [last];
      if last != sep {
        var parts := Split(s, sep);
        if |init| > 1 {
          assert parts[..|parts| - 1] == init[..|init| - 1];
        }
      }
    }
  }

  /** One step of `Split`: the next character either starts a new piece or extends the last one. */
  function SnocPiece(parts: seq<string>, c: char, sep: char): seq<string>
    requires |parts| >= 1
  {
    if c == sep then parts + [""] else parts[..|parts| - 1] + [parts[|parts| - 1] + [c]]
  }

  lemma SnocPieceAfter(x: seq<string>, y: seq<string>, c: char, sep: char)
    requires |y| >= 1
    ensures SnocPiece(x + y, c, sep) == x + SnocPiece(y, c, sep)
  {
    var xy := x + y;
    if c != sep {
      assert xy[..|xy| - 1] == x + y[..|y| - 1];
      assert xy[|xy| - 1] == y[|y| - 1];
    }
  }

  /** Unfolds `Split` at the last character. */
  lemma SplitSnoc(s: string, c: char, sep: char)
    ensures Split(s + [c], sep) == SnocPiece(Split(s, sep), c, sep)
  {
    assert (s + [c])[..|s + [c]| - 1] == s;
  }

  /** `text.split(";")` of two texts joined by a `;` is the concatenation of their splits. */
  lemma {:induction false} SplitAround(a: string, b: string, sep: char)
    ensures Split(a + [sep] + b, sep) == Split(a, sep) + Split(b, sep)
    decreases |b|
  {
    if b == [] {
      assert a + [sep] + b == a + [sep];
      SplitSnoc(a, sep, sep);
    } else {
      var b' := b[..|b| - 1];
      var c := b[|b| - 1];
      var ab' := a + [sep] + b';
      SplitAround(a, b', sep);
      assert a + [sep] + b == ab' + [c];
      assert b == b' + [c];
      SplitSnoc(ab', c, sep);
      SplitSnoc(b', c, sep);
      SnocPieceAfter(Split(a, sep), Split(b', sep), c, sep);
    }
  }

  /** `s.startsWith("--")` */
  predicate IsComment(s: string) {
    |s| >= 2 && s[0] == '-' && s[1] == '-'
  }

  /** The kept pieces: non-empty after trimming and not starting with "--". */
  predicate KeepStatement(s: string) {
    |s| > 0 && !IsComment(s)
  }

  /** `sql.split(";").map(s => s.trim()).filter(s => s.length > 0 && !s.startsWith("--"))` */
  function Statements(sql: string): seq<string> {
    Filter(MapSeq(Split(sql, ';'), Trim), KeepStatement)
  }

  /** No piece of `s.split(sep)` holds the separator. */
  lemma {:induction false} SplitNoSeparator(s: string, sep: char)
    ensures forall i :: 0 <= i < |Split(s, sep)| ==> sep !in Split(s, sep)[i]
    decreases |s|
  {
    if s != [] {
      var init := s[..|s| - 1];
      var c := s[|s| - 1];
      SplitNoSeparator(init, sep);
      assert s == init + [c];
      SplitSnoc(init, c, sep);
      var parts := Split(init, sep);
      if c != sep {
        var last := parts[|parts| - 1];
        assert sep !in last;
        assert sep !in last + [c];
      }
    }
  }

  /** Trimming keeps a part of the text whose ends are not white space. */
  lemma TrimParts(s: string)
    ensures forall c :: c in Trim(s) ==> c in s
    ensures Trim(s) != [] ==> !IsJsSpace(Trim(s)[0]) && !IsJsSpace(Trim(s)[|Trim(s)| - 1])
  {
    TrimMembers(s);
    TrimEnds(s);
  }

  lemma TrimMembers(s: string)
    ensures forall c :: c in Trim(s) ==> c in s
  {
    var t := TrimStart(s);
    DropMembers(s, |s| - |t|);
    TakeMembers(t, |TrimEnd(t)|);
  }

  lemma TrimEnds(s: string)
    ensures Trim(s) != [] ==> !IsJsSpace(Trim(s)[0]) && !IsJsSpace(Trim(s)[|Trim(s)| - 1])
  {
    var t := TrimStart(s);
    var r := TrimEnd(t);
    if r != [] {
      assert r[0] == t[0];
    }
  }

  /** A statement as the script sends it: trimmed, non-empty, free of `;` and not a `--` comment. */
  predicate WellFormedStatement(st: string) {
    && st != []
    && !IsJsSpace(st[0]) && !IsJsSpace(st[|st| - 1])
    && !IsComment(st)
    && ';' !in st
  }

  /** Every statement the script runs is trimmed, non-empty, free of `;` and not a `--` comment. */
  lemma StatementsWellFormed(sql: string)
    ensures forall st :: st in Statements(sql) ==> WellFormedStatement(st)
  {
    var parts := Split(sql, ';');
    SplitNoSeparator(sql, ';');
    forall st | st in Statements(sql) ensures WellFormedStatement(st) {
      FilterMapMembers(parts, Trim, KeepStatement, st);
      var i :| 0 <= i < |parts| && st == Trim(parts[i]);
      TrimmedPieceWellFormed(parts[i]);
    }
  }

  lemma TrimmedPieceWellFormed(p: string)
    requires ';' !in p && KeepStatement(Trim(p))
    ensures WellFormedStatement(Trim(p))
  {
    TrimParts(p);
  }

  /** Statements keep their source order: the statements of `a; b` are those of `a` followed by
      those of `b`. */
  lemma StatementsInOrder(a: string, b: string)
    ensures Statements(a + ";" + b) == Statements(a) + Statements(b)
  {
    assert a + ";" + b == a + [';'] + b;
    SplitAround(a, b, ';');
    var pa, pb := Split(a, ';'), Split(b, ';');
    assert MapSeq(pa + pb, Trim) == MapSeq(pa, Trim) + MapSeq(pb, Trim);
    FilterAppend(MapSeq(pa, Trim), MapSeq(pb, Trim), KeepStatement);
  }

  /** A piece whose first line is a `--` comment is dropped together with the statement under it. */
  lemma CommentedStatementDropped(comment: string, stmt: string)
    requires ';' !in comment && ';' !in stmt
    ensures Statements("--" + comment + "\n" + stmt) == []
  {
    var sql := "--" + comment + "\n" + stmt;
    CommentedPieceHasNoSeparator(comment, stmt);
    NoSeparatorSplit(sql, ';');
    var t := Trim(sql);
    assert TrimStart(sql) == sql;
    assert |TrimEnd(sql)| >= 2 by {
      assert !IsJsSpace(sql[1]);
    }
    assert t[0] == '-' && t[1] == '-';
    assert Filter([t], KeepStatement) == [];
  }

  lemma CommentedPieceHasNoSeparator(comment: string, stmt: string)
    requires ';' !in comment && ';' !in stmt
    ensures ';' !in "--" + comment + "\n" + stmt
  {
    var sql := "--" + comment + "\n" + stmt;
    forall i | 0 <= i < |sql| ensures sql[i] != ';' {
      if 2 <= i < 2 + |comment| {
        assert sql[i] == comment[i - 2];
      } else if i >= 3 + |comment| {
        assert sql[i] == stmt[i - 3 - |comment|];
      }
    }
  }

  lemma {:induction false} NoSeparatorSplit(s: string, sep: char)
    requires sep !in s
    ensures Split(s, sep) == [s]
    decreases |s|
  {
    if s != [] {
      NoSeparatorSplit(s[..|s| - 1], sep);
      assert s == s[..|s| - 1] + [s[|s| - 1]];
    }
  }

  // ---------------------------------------------------------------- corrected runner

  /** `s` holds a `--` comment starting at position `i`. */
  predicate CommentAt(s: string, i: int) {
    0 <= i && i + 1 < |s| && s[i] == '-' && s[i + 1] == '-'
  }

  /** The first position at or after `i` that is not white space. */
  function SkipSpace(s: string, i: nat): (j: nat)
    requires i <= |s|
    ensures i <= j <= |s|
    ensures j < |s| ==> !IsJsSpace(s[j])
    decreases |s| - i
  {
    if i < |s| && IsJsSpace(s[i]) then SkipSpace(s, i + 1) else i
  }

  /** The position just after the line that starts at `i` (the end of `s` on the last line). */
  function SkipLine(s: string, i: nat): (j: nat)
    requires i < |s|
    ensures i < j <= |s|
    decreases |s| - i
  {
    if s[i] == '\n' || i + 1 == |s| then i + 1 else SkipLine(s, i + 1)
  }

  /** Where the statement of a piece starts once the white space and whole `--` comment lines in
      front of it are skipped: never on white space, never on a comment. */
  function StatementStart(s: string, i: nat): (j: nat)
    requires i <= |s|
    ensures i <= j <= |s|
    ensures j < |s| ==> !IsJsSpace(s[j]) && !CommentAt(s, j)
    decreases |s| - i
  {
    var t := SkipSpace(s, i);
    if CommentAt(s, t) then StatementStart(s, SkipLine(s, t)) else t
  }

  /** A piece with its leading comment lines removed, then trimmed. */
  function CleanPiece(s: string): string {
    TrimEnd(s[StatementStart(s, 0)..])
  }

  /** A cleaned piece is part of the piece and starts and ends without white space or `--`. */
  lemma CleanPieceParts(s: string)
    ensures var r := CleanPiece(s);
      && (r != [] ==> !IsJsSpace(r[0]) && !IsJsSpace(r[|r| - 1]) && !IsComment(r))
      && (forall c :: c in r ==> c in s)
  {
    var k := StatementStart(s, 0);
    var d := s[k..];
    var r := TrimEnd(d);
    DropMembers(s, k);
    TakeMembers(d, |r|);
    if r != [] {
      assert r[0] == d[0] == s[k];
      if |r| >= 2 {
        assert r[1] == d[1] == s[k + 1];
      }
    }
  }

  predicate NonEmpty(s: string) { s != [] }

  /** The runner as evidently intended: comment lines are removed, the statements under them stay. */
  function StatementsKeepingCommented(sql: string): seq<string> {
    Filter(MapSeq(Split(sql, ';'), CleanPiece), NonEmpty)
  }

  /** The corrected runner still runs only trimmed, non-empty, `;`-free, non-comment statements ... */
  lemma StatementsKeepingCommentedWellFormed(sql: string)
    ensures forall st :: st in StatementsKeepingCommented(sql) ==> WellFormedStatement(st)
  {
    var parts := Split(sql, ';');
    SplitNoSeparator(sql, ';');
    forall st | st in StatementsKeepingCommented(sql) ensures WellFormedStatement(st) {
      FilterMapMembers(parts, CleanPiece, NonEmpty, st);
      var i :| 0 <= i < |parts| && st == CleanPiece(parts[i]);
      CleanedPieceWellFormed(parts[i]);
    }
  }

  lemma CleanedPieceWellFormed(p: string)
    requires ';' !in p && NonEmpty(CleanPiece(p))
    ensures WellFormedStatement(CleanPiece(p))
  {
    CleanPieceParts(p);
  }

  /** ... and keeps the statement under a leading comment line. */
  lemma CommentedStatementKept(comment: string, stmt: string)
    requires ';' !in comment && ';' !in stmt && '\n' !in comment
    requires stmt != [] && !IsJsSpace(stmt[0]) && !IsComment(stmt)
    ensures StatementsKeepingCommented("--" + comment + "\n" + stmt) == [TrimEnd(stmt)]
  {
    CommentedPieceHasNoSeparator(comment, stmt);
    SinglePieceKept("--" + comment + "\n" + stmt);
    CommentLineSkipped(comment, stmt);
    TrimEndKeepsStart(stmt);
  }

  /** Behind a comment line, the statement starts right after the line break. */
  lemma CommentLineSkipped(comment: string, stmt: string)
    requires '\n' !in comment
    requires stmt != [] && !IsJsSpace(stmt[0]) && !IsComment(stmt)
    ensures CleanPiece("--" + comment + "\n" + stmt) == TrimEnd(stmt)
  {
    var line := "--" + comment + "\n";
    var sql := line + stmt;
    assert sql == "--" + comment + "\n" + stmt;
    forall k | 0 <= k < |line| - 1 ensures sql[k] != '\n' {
      if k >= 2 {
        assert sql[k] == comment[k - 2];
      }
    }
    SkipLineTo(sql, 0, |line| - 1);
    assert SkipSpace(sql, 0) == 0 by {
      assert !IsJsSpace(sql[0]);
    }
    assert sql[|line|..] == stmt;
    assert SkipSpace(sql, |line|) == |line| by {
      assert sql[|line|] == stmt[0];
    }
    assert !CommentAt(sql, |line|) by {
      if |stmt| >= 2 {
        assert sql[|line| + 1] == stmt[1];
      }
    }
    assert StatementStart(sql, |line|) == |line|;
    assert CommentAt(sql, 0);
    assert StatementStart(sql, 0) == StatementStart(sql, |line|);
  }

  /** Trimming the end of a text that starts with a visible character leaves something. */
  lemma TrimEndKeepsStart(s: string)
    requires s != [] && !IsJsSpace(s[0])
    ensures TrimEnd(s) != []
  {
  }

  /** A text without `;` is one piece, kept when its cleaned form is not empty. */
  lemma SinglePieceKept(sql: string)
    requires ';' !in sql
    ensures StatementsKeepingCommented(sql) == if NonEmpty(CleanPiece(sql)) then [CleanPiece(sql)] else []
  {
    NoSeparatorSplit(sql, ';');
    MapSingleton(sql, CleanPiece);
    FilterSingleton(CleanPiece(sql), NonEmpty);
  }

  /** Skipping a line stops just after its line break. */
  lemma {:induction false} SkipLineTo(s: string, i: nat, e: nat)
    requires i <= e < |s| && s[e] == '\n'
    requires forall k :: i <= k < e ==> s[k] != '\n'
    ensures SkipLine(s, i) == e + 1
    decreases e - i
  {
    if i < e {
      SkipLineTo(s, i + 1, e);
    }
  }

  // ---------------------------------------------------------------- the script

  datatype MigrationRun = Exit(code: int) | Execute(statements: seq<string>)

  /** The script's decisions before any statement runs: no argument, an empty argument or a missing
      file ends the process with exit code 1 before a database connection is opened; otherwise the
      statements of the file are executed in order. `fileContents` is `None` when no file exists at
      the resolved path. */
  function RunMigration(arg: Option<string>, fileContents: Option<string>): (r: MigrationRun)
    ensures (arg.None? || arg == Some("")) ==> r == Exit(1)
    ensures arg.Some? && arg.value != "" && fileContents.None? ==> r == Exit(1)
    ensures r.Execute? <==> arg.Some? && arg.value != "" && fileContents.Some?
    ensures r.Execute? ==> r.statements == Statements(fileContents.value)
    ensures r.Execute? ==> forall st :: st in r.statements ==> WellFormedStatement(st)
  {
    if arg.None? || arg.value == "" then Exit(1)
    else if fileContents.None? then Exit(1)
    else
      StatementsWellFormed(fileContents.value);
      Execute(Statements(fileContents.value))
  }
}
