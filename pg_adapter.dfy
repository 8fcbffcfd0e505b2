/** The MySQL-to-PostgreSQL adapter `db.execute`: every '?' of the statement becomes
    the next numbered placeholder `$1`, `$2`, ... before the statement is sent, and the
    rows come back wrapped in a one-element array. */
module PgAdapter {
  import opened Base
  import opened Text

  /** Number of '?' marks in `s`. */
  function Marks(s: string): (k: nat)
    ensures k <= |s|
    ensures k == 0 <==> '?' !in s
  {
    if s == [] then 0
    else
      assert s == s[..|s| - 1] + [s[|s| - 1]];
      Marks(s[..|s| - 1]) + (if s[|s| - 1] == '?' then 1 else 0)
  }

  function Placeholder(n: nat): (p: string)
    ensures |p| >= 2 && p[0] == '$' && '?' !in p
  {
    "$" + NatToDecimal(n)
  }

  /** The statement with its marks numbered from `n` on, left to right. */
  function Numbered(sql: string, n: nat): (r: string)
    ensures '?' !in r
  {
    if sql == [] then []
    else if sql[0] == '?' then Placeholder(n) + Numbered(sql[1..], n + 1)
    else [sql[0]] + Numbered(sql[1..], n)
  }

  /** What `db.execute` sends: rewritten only when a non-empty parameter array is given. */
  function Processed(sql: string, params: Option<seq<string>>): (r: string)
    ensures params.None? || params.value == [] ==> r == sql
    ensures params.Some? && params.value != [] ==> '?' !in r
  {
    if params.Some? && |params.value| > 0 then Numbered(sql, 1) else sql
  }

  /** The rewrite as the source runs it: one pass over the text with a counter that
      starts at 1 and is bumped on each mark. */
  method Rewrite(sql: string) returns (out: string, paramIndex: nat)
    ensures out == Numbered(sql, 1)
    ensures paramIndex == Marks(sql) + 1
  {
    out, paramIndex := "", 1;
    var i := 0;
    while i < |sql|
      invariant 0 <= i <= |sql|
      invariant paramIndex == Marks(sql[..i]) + 1
      invariant out + Numbered(sql[i..], paramIndex) == Numbered(sql, 1)
    {
      RewriteStep(sql, i, out, paramIndex);
      MarksStep(sql, i);
      if sql[i] == '?' {
        out := out + Placeholder(paramIndex);
        paramIndex := paramIndex + 1;
      } else {
        out := out + [sql[i]];
      }
      i := i + 1;
    }
    assert sql[..i] == sql;
  }

  /** Emitting the text for position `i` keeps the output a prefix of the rewrite. */
  lemma RewriteStep(sql: string, i: nat, out: string, n: nat)
    requires i < |sql|
    requires out + Numbered(sql[i..], n) == Numbered(sql, 1)
    ensures sql[i] == '?' ==> (out + Placeholder(n)) + Numbered(sql[i + 1..], n + 1) == Numbered(sql, 1)
    ensures sql[i] != '?' ==> (out + [sql[i]]) + Numbered(sql[i + 1..], n) == Numbered(sql, 1)
  {
    NumberedStep(sql, i, n);
    if sql[i] == '?' {
      assert (out + Placeholder(n)) + Numbered(sql[i + 1..], n + 1)
        == out + (Placeholder(n) + Numbered(sql[i + 1..], n + 1));
    } else {
      assert (out + [sql[i]]) + Numbered(sql[i + 1..], n) == out + ([sql[i]] + Numbered(sql[i + 1..], n));
    }
  }

  /** One step of the numbering, read from position `i`. */
  lemma NumberedStep(sql: string, i: nat, n: nat)
    requires i < |sql|
    ensures Numbered(sql[i..], n)
            == if sql[i] == '?' then Placeholder(n) + Numbered(sql[i + 1..], n + 1)
               else [sql[i]] + Numbered(sql[i + 1..], n)
  {
    var rest := sql[i..];
    assert rest[0] == sql[i] && rest[1..] == sql[i + 1..];
  }

  /** One more character adds its own mark to the count of a prefix. */
  lemma MarksStep(sql: string, i: nat)
    requires i < |sql|
    ensures Marks(sql[..i + 1]) == Marks(sql[..i]) + (if sql[i] == '?' then 1 else 0)
  {
    assert sql[..i + 1][..i] == sql[..i];
  }

  /** `db.execute` with the pool's answer to the rewritten statement given as `run`:
      a successful answer comes back as `[rows]`, a failure is rethrown. */
  method Execute<R>(sql: string, params: Option<seq<string>>, run: string -> Outcome<R>)
    returns (r: Outcome<seq<R>>)
    ensures run(Processed(sql, params)).Ok? ==> r == Ok([run(Processed(sql, params)).value])
    ensures run(Processed(sql, params)).Fail? ==>
      r == Fail(run(Processed(sql, params)).status, run(Processed(sql, params)).message)
  {
    var processed := sql;
    if params.Some? && |params.value| > 0 {
      var k;
      processed, k := Rewrite(sql);
    }
    var result := run(processed);
    match result
    case Ok(rows) => r := Ok([rows]);
    case Fail(s, m) => r := Fail(s, m);
  }

  /** A statement without marks is left as it is. */
  lemma {:induction false} NumberedNoMarks(sql: string, n: nat)
    requires '?' !in sql
    ensures Numbered(sql, n) == sql
  {
    if sql != [] {
      assert sql[0] in sql;
      assert forall c :: c in sql[1..] ==> c in sql;
      NumberedNoMarks(sql[1..], n);
    }
  }

  /** The first mark gets number `n`, the text before it is kept, and numbering goes
      on from `n + 1` after it: marks are numbered left to right, consecutively. */
  lemma {:induction false} NumberedFirstMark(pre: string, post: string, n: nat)
    requires '?' !in pre
    ensures Numbered(pre + "?" + post, n) == pre + Placeholder(n) + Numbered(post, n + 1)
  {
    if pre == [] {
      assert pre + "?" + post == "?" + post;
      assert ("?" + post)[1..] == post;
    } else {
      assert (pre + "?" + post)[0] == pre[0];
      assert (pre + "?" + post)[1..] == pre[1..] + "?" + post;
      assert forall c :: c in pre[1..] ==> c in pre;
      assert pre[0] in pre;
      NumberedFirstMark(pre[1..], post, n);
      assert pre == [pre[0]] + pre[1..];
    }
  }

  /** Only marks grow: each becomes a placeholder of at least two characters. */
  lemma {:induction false} NumberedLength(sql: string, n: nat)
    ensures |Numbered(sql, n)| >= |sql| + Marks(sql)
  {
    if sql != [] {
      NumberedLength(sql[1..], if sql[0] == '?' then n + 1 else n);
      MarksFront(sql);
    }
  }

  lemma {:induction false} MarksFront(s: string)
    requires s != []
    ensures Marks(s) == Marks(s[1..]) + (if s[0] == '?' then 1 else 0)
    decreases |s|
  {
    if |s| > 1 {
      var init := s[..|s| - 1];
      MarksFront(init);
      assert init[1..] == s[1..][..|s[1..]| - 1];
    } else {
      assert s[1..] == [];
      assert s[..|s| - 1] == [];
    }
  }

  /** The rewrite is purely textual: a mark inside a quoted literal is numbered too. */
  lemma QuotedMarkRewritten()
    ensures Processed("'?' = ?", Some(["x"])) == "'$1' = $2"
  {
    assert Placeholder(1) == "$1" by { assert NatToDecimal(1) == "1"; }
    QuotedMarkTail();
    assert Numbered("'?' = ?", 1) == "'$1' = $2" by {
      assert "'?' = ?" == "'" + "?" + "' = ?";
      NumberedFirstMark("'", "' = ?", 1);
    }
  }

  lemma QuotedMarkTail()
    ensures Numbered("' = ?", 2) == "' = $2"
  {
    assert Placeholder(2) == "$2" by { assert NatToDecimal(2) == "2"; }
    assert "' = ?" == "' = " + "?" + "";
    NumberedFirstMark("' = ", "", 2);
  }

  /** Marks of a concatenation add up. */
  lemma {:induction false} MarksConcat(a: string, b: string)
    ensures Marks(a + b) == Marks(a) + Marks(b)
    decreases |b|
  {
    if b != [] {
      var b0 := b[..|b| - 1];
      assert (a + b)[..|a + b| - 1] == a + b0;
      MarksConcat(a, b0);
    } else {
      assert a + b == a;
    }
  }
}
