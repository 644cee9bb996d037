/** The SQL script runner: `split_sql_statements` (a character scanner that
    treats `$tag$ ... $tag$` blocks as opaque) and `execute_sql_file`, which runs
    every statement in one transaction except `REFRESH MATERIALIZED VIEW
    CONCURRENTLY`, which it runs in autocommit mode. */
module SqlScript {
  import opened Text
  import opened Seqs

  /** The index of the first `$` at or after `from`, or `|s|` when there is none
      (the inner `while` of the scanner). */
  function NextDollar(s: string, from: nat): (j: nat)
    requires from <= |s|
    ensures from <= j <= |s|
    ensures j < |s| ==> s[j] == '$'
    ensures forall k :: from <= k < j ==> s[k] != '$'
    decreases |s| - from
  {
    if from == |s| || s[from] == '$' then from else NextDollar(s, from + 1)
  }

  /** The statement the scanner keeps for a buffer: the stripped buffer, unless
      it is empty. */
  function Emit(buf: string): (r: seq<string>)
    ensures |r| <= 1
    ensures r != [] ==> Trimmed(r[0]) && r[0] == Strip(buf)
  {
    var s := Strip(buf);
    if s == [] then [] else [s]
  }

  /** A buffer yields no statement exactly when it is all white space. */
  lemma EmitNothing(buf: string)
    ensures Emit(buf) == [] <==> AllSpace(buf)
  {
    StripSpec(buf);
  }

  /** The scanner's dollar-quote state (`in_dollar` and `dollar_tag`): outside
      any dollar block, or inside one opened by `tag`. */
  datatype Quote = Outside | Inside(tag: string)

  /** A `$...$` token `t` opens a dollar block outside one; inside one it closes
      the block exactly when it equals the opening tag. */
  function AfterToken(q: Quote, t: string): (r: Quote)
    ensures q.Outside? ==> r == Inside(t)
    ensures q.Inside? ==> (r.Outside? <==> t == q.tag) && (r.Inside? ==> r == q)
  {
    match q
    case Outside => Inside(t)
    case Inside(tag) => if t == tag then Outside else q
  }

  /** The statements the scanner emits from the unread text `rest` on, given the
      text buffered so far and the dollar-quote state. A `$` followed later by
      another `$` is read as one token `$...$`; a `;` outside a dollar block ends
      a statement; every other character is buffered. */
  function Scan(rest: string, buf: string, q: Quote): seq<string>
    decreases |rest|
  {
    if rest == [] then Emit(buf)
    else if rest[0] == '$' && NextDollar(rest, 1) < |rest| then
      var j := NextDollar(rest, 1);
      Scan(rest[j + 1..], buf + rest[..j + 1], AfterToken(q, rest[..j + 1]))
    else if rest[0] == ';' && q.Outside? then Emit(buf) + Scan(rest[1..], "", q)
    else Scan(rest[1..], buf + [rest[0]], q)
  }

  /** The statements of a whole script. */
  function Statements(sqlText: string): seq<string> {
    Scan(sqlText, "", Outside)
  }

  /** `NextDollar` on a suffix, in the suffix's own indices. */
  lemma {:induction false} NextDollarShift(s: string, i: nat, from: nat)
    requires i + from <= |s|
    ensures NextDollar(s[i..], from) == NextDollar(s, i + from) - i
    decreases |s| - (i + from)
  {
    if i + from < |s| {
      assert s[i..][from] == s[i + from];
      if s[i + from] != '$' {
        NextDollarShift(s, i, from + 1);
      }
    }
  }

  /** `Scan` read by position: the statements emitted from index `i` of the
      script on. This is the form the index-based loop below follows. */
  function ScanAt(text: string, i: nat, buf: string, q: Quote): seq<string>
    requires i <= |text|
    decreases |text| - i
  {
    if i == |text| then Emit(buf)
    else if text[i] == '$' && NextDollar(text, i + 1) < |text| then
      var j := NextDollar(text, i + 1);
      ScanAt(text, j + 1, buf + text[i..j + 1], AfterToken(q, text[i..j + 1]))
    else if text[i] == ';' && q.Outside? then Emit(buf) + ScanAt(text, i + 1, "", q)
    else ScanAt(text, i + 1, buf + [text[i]], q)
  }

  /** `Scan` on the text from index `i`, when a `$...$` token starts there. */
  lemma ScanTokenFrom(text: string, i: nat, buf: string, q: Quote)
    requires i < |text| && text[i] == '$' && NextDollar(text, i + 1) < |text|
    ensures var j := NextDollar(text, i + 1);
      Scan(text[i..], buf, q) == Scan(text[j + 1..], buf + text[i..j + 1], AfterToken(q, text[i..j + 1]))
  {
    var rest := text[i..];
    var j := NextDollar(text, i + 1);
    NextDollarShift(text, i, 1);
    assert rest[..j - i + 1] == text[i..j + 1];
    assert rest[j - i + 1..] == text[j + 1..];
  }

  /** `Scan` on the text from index `i`, when no `$...$` token starts there. */
  lemma ScanCharFrom(text: string, i: nat, buf: string, q: Quote)
    requires i < |text| && !(text[i] == '$' && NextDollar(text, i + 1) < |text|)
    ensures Scan(text[i..], buf, q) ==
      if text[i] == ';' && q.Outside? then Emit(buf) + Scan(text[i + 1..], "", q)
      else Scan(text[i + 1..], buf + [text[i]], q)
  {
    var rest := text[i..];
    NextDollarShift(text, i, 1);
    assert rest[1..] == text[i + 1..];
  }

  /** Reading by position and reading the remaining text agree. */
  lemma {:induction false} ScanAtIsScan(text: string, i: nat, buf: string, q: Quote)
    requires i <= |text|
    ensures ScanAt(text, i, buf, q) == Scan(text[i..], buf, q)
    decreases |text| - i, 1
  {
    if i == |text| {
      assert text[i..] == [];
    } else if text[i] == '$' && NextDollar(text, i + 1) < |text| {
      ScanAtIsScanToken(text, i, buf, q);
    } else {
      ScanAtIsScanChar(text, i, buf, q);
    }
  }

  lemma {:induction false} ScanAtIsScanToken(text: string, i: nat, buf: string, q: Quote)
    requires i < |text| && text[i] == '$' && NextDollar(text, i + 1) < |text|
    ensures ScanAt(text, i, buf, q) == Scan(text[i..], buf, q)
    decreases |text| - i, 0
  {
    var j := NextDollar(text, i + 1);
    ScanTokenFrom(text, i, buf, q);
    ScanAtIsScan(text, j + 1, buf + text[i..j + 1], AfterToken(q, text[i..j + 1]));
  }

  lemma {:induction false} ScanAtIsScanChar(text: string, i: nat, buf: string, q: Quote)
    requires i < |text| && !(text[i] == '$' && NextDollar(text, i + 1) < |text|)
    ensures ScanAt(text, i, buf, q) == Scan(text[i..], buf, q)
    decreases |text| - i, 0
  {
    ScanCharFrom(text, i, buf, q);
    if text[i] == ';' && q.Outside? {
      ScanAtIsScan(text, i + 1, "", q);
    } else {
      ScanAtIsScan(text, i + 1, buf + [text[i]], q);
    }
  }

  /** Appending the stripped buffer when it is not empty is appending `Emit`. */
  lemma EmitPrefix(statements: seq<string>, buf: string, rest: seq<string>)
    ensures (if Strip(buf) != [] then statements + [Strip(buf)] else statements) + rest == statements + (Emit(buf) + rest)
  {
  }

  /** The scanner's inner loop: the index of the `$` closing a token, or the
      end of the script. */
  method FindDollar(text: string, from: nat) returns (j: nat)
    requires from <= |text|
    ensures j == NextDollar(text, from)
  {
    j := from;
    while j < |text| && text[j] != '$'
      invariant from <= j <= |text|
      invariant NextDollar(text, j) == NextDollar(text, from)
    {
      j := j + 1;
    }
  }

  /** One step of `ScanAt` on a `$...$` token that ends at index `j`. */
  lemma ScanAtToken(text: string, i: nat, j: nat, buf: string, q: Quote)
    requires i < j < |text| && text[i] == '$' && j == NextDollar(text, i + 1)
    ensures ScanAt(text, i, buf, q) == ScanAt(text, j + 1, buf + text[i..j + 1], AfterToken(q, text[i..j + 1]))
  {
  }

  /** One step of `ScanAt` on a `;` outside a dollar block. */
  lemma ScanAtSemicolon(text: string, i: nat, buf: string)
    requires i < |text| && text[i] == ';'
    ensures ScanAt(text, i, buf, Outside) == Emit(buf) + ScanAt(text, i + 1, "", Outside)
  {
  }

  /** One step of `ScanAt` on a character that is only buffered. */
  lemma ScanAtOther(text: string, i: nat, buf: string, q: Quote)
    requires i < |text| && !(text[i] == '$' && NextDollar(text, i + 1) < |text|)
    requires !(text[i] == ';' && q.Outside?)
    ensures ScanAt(text, i, buf, q) == ScanAt(text, i + 1, buf + [text[i]], q)
  {
  }

  function QuoteOf(inDollar: bool, dollarTag: string): Quote {
    if inDollar then Inside(dollarTag) else Outside
  }

  /** One pass of the scanner's loop body at index `i`. */
  method ScanStep(sqlText: string, i: nat, buf: string, inDollar: bool, dollarTag: string)
    returns (emitted: seq<string>, i': nat, buf': string, inDollar': bool, dollarTag': string)
    requires i < |sqlText|
    ensures i < i' <= |sqlText|
    ensures ScanAt(sqlText, i, buf, QuoteOf(inDollar, dollarTag)) == emitted + ScanAt(sqlText, i', buf', QuoteOf(inDollar', dollarTag'))
  {
    inDollar', dollarTag' := inDollar, dollarTag;
    emitted := [];
    var ch := sqlText[i];
    var j := i + 1;
    if ch == '$' {
      j := FindDollar(sqlText, i + 1);
    }
    if ch == '$' && j < |sqlText| {
      var tag := sqlText[i..j + 1];
      if !inDollar {
        inDollar' := true;
        dollarTag' := tag;
      } else if tag == dollarTag {
        inDollar' := false;
        dollarTag' := "";
      }
      ScanAtToken(sqlText, i, j, buf, QuoteOf(inDollar, dollarTag));
      buf' := buf + tag;
      i' := j + 1;
    } else if ch == ';' && !inDollar {
      ScanAtSemicolon(sqlText, i, buf);
      var stmt := Strip(buf);
      if stmt != [] {
        emitted := [stmt];
      }
      buf' := "";
      i' := i + 1;
    } else {
      ScanAtOther(sqlText, i, buf, QuoteOf(inDollar, dollarTag));
      buf' := buf + [ch];
      i' := i + 1;
    }
  }

  /** `split_sql_statements`: the index-based scanner of the source. */
  method SplitSqlStatements(sqlText: string) returns (statements: seq<string>)
    ensures statements == Statements(sqlText)
  {
    statements := [];
    var buf: string := "";
    var i := 0;
    var inDollar := false;
    var dollarTag: string := "";
    while i < |sqlText|
      invariant 0 <= i <= |sqlText|
      invariant statements + ScanAt(sqlText, i, buf, QuoteOf(inDollar, dollarTag)) == ScanAt(sqlText, 0, "", Outside)
      decreases |sqlText| - i
    {
      var emitted;
      ghost var rest := ScanAt(sqlText, i, buf, QuoteOf(inDollar, dollarTag));
      emitted, i, buf, inDollar, dollarTag := ScanStep(sqlText, i, buf, inDollar, dollarTag);
      AppendAssoc(statements, emitted, ScanAt(sqlText, i, buf, QuoteOf(inDollar, dollarTag)));
      statements := statements + emitted;
    }
    var tail := Strip(buf);
    if tail != [] {
      statements := statements + [tail];
    }
    ScanAtIsScan(sqlText, 0, "", Outside);
    assert sqlText[0..] == sqlText;
  }

  predicate AllTrimmed(stmts: seq<string>) {
    forall k :: 0 <= k < |stmts| ==> Trimmed(stmts[k])
  }

  lemma AllTrimmedAppend(a: seq<string>, b: seq<string>)
    requires AllTrimmed(a) && AllTrimmed(b)
    ensures AllTrimmed(a + b)
  {
    forall k | 0 <= k < |a + b| ensures Trimmed((a + b)[k]) {
      if k >= |a| {
        assert (a + b)[k] == b[k - |a|];
      }
    }
  }

  lemma EmitTrimmed(buf: string)
    ensures AllTrimmed(Emit(buf))
  {
  }

  lemma {:induction false} ScanTrimmed(rest: string, buf: string, q: Quote)
    ensures AllTrimmed(Scan(rest, buf, q))
    decreases |rest|
  {
    if rest == [] {
      EmitTrimmed(buf);
    } else if rest[0] == '$' && NextDollar(rest, 1) < |rest| {
      var j := NextDollar(rest, 1);
      ScanTrimmed(rest[j + 1..], buf + rest[..j + 1], AfterToken(q, rest[..j + 1]));
      assert Scan(rest, buf, q) == Scan(rest[j + 1..], buf + rest[..j + 1], AfterToken(q, rest[..j + 1]));
    } else if rest[0] == ';' && q.Outside? {
      ScanTrimmed(rest[1..], "", q);
      EmitTrimmed(buf);
      AllTrimmedAppend(Emit(buf), Scan(rest[1..], "", q));
      assert Scan(rest, buf, q) == Emit(buf) + Scan(rest[1..], "", q);
    } else {
      ScanTrimmed(rest[1..], buf + [rest[0]], q);
      assert Scan(rest, buf, q) == Scan(rest[1..], buf + [rest[0]], q);
    }
  }

  /** Every statement returned is non-empty and stripped. */
  lemma StatementsAreTrimmed(sqlText: string)
    ensures forall s :: s in Statements(sqlText) ==> Trimmed(s)
  {
    ScanTrimmed(sqlText, "", Outside);
  }

  predicate NoDollar(s: string) {
    forall k :: 0 <= k < |s| ==> s[k] != '$'
  }

  predicate NoSemicolon(s: string) {
    forall k :: 0 <= k < |s| ==> s[k] != ';'
  }

  /** Text with no `$` (and, outside a dollar block, no `;`) is only buffered. */
  lemma {:induction false} ScanPlain(pre: string, rest: string, buf: string, q: Quote)
    requires NoDollar(pre)
    requires q.Outside? ==> NoSemicolon(pre)
    ensures Scan(pre + rest, buf, q) == Scan(rest, buf + pre, q)
    decreases |pre|
  {
    if pre == [] {
      assert pre + rest == rest;
      assert buf + pre == buf;
    } else {
      assert (pre + rest)[0] == pre[0];
      assert (pre + rest)[1..] == pre[1..] + rest;
      ScanPlain(pre[1..], rest, buf + [pre[0]], q);
      assert buf + [pre[0]] + pre[1..] == buf + pre;
    }
  }

  /** A `$tag$` token is buffered whole and moves the dollar-quote state. */
  lemma ScanToken(tagBody: string, rest: string, buf: string, q: Quote)
    requires NoDollar(tagBody)
    ensures var t := "$" + tagBody + "$";
      Scan(t + rest, buf, q) == Scan(rest, buf + t, AfterToken(q, t))
  {
    var t := "$" + tagBody + "$";
    var s := t + rest;
    var j := NextDollar(s, 1);
    assert s[|tagBody| + 1] == '$';
    assert forall k :: 1 <= k < |tagBody| + 1 ==> s[k] == tagBody[k - 1];
    assert j == |tagBody| + 1;
    assert s[..j + 1] == t;
    assert s[j + 1..] == rest;
  }

  /** A `;` outside any dollar block ends the statement before it. */
  lemma SemicolonSplits(before: string, after: string)
    requires NoDollar(before) && NoSemicolon(before)
    ensures Statements(before + ";" + after) == Emit(before) + Statements(after)
  {
    assert before + ";" + after == before + (";" + after);
    ScanPlain(before, ";" + after, "", Outside);
    assert "" + before == before;
    assert (";" + after)[1..] == after;
  }

  /** Semicolons inside a `$tag$ ... $tag$` block (the body of a `DO $$ ... $$`)
      do not split: the whole block stays in one statement, and the `;` after
      the closing tag ends it. */
  lemma DollarBlockKeepsSemicolons(pre: string, tagBody: string, body: string, post: string)
    requires NoDollar(pre) && NoSemicolon(pre)
    requires NoDollar(tagBody) && NoDollar(body)
    ensures var t := "$" + tagBody + "$";
      Statements(pre + t + body + t + ";" + post) == Emit(pre + t + body + t) + Statements(post)
  {
    var t := "$" + tagBody + "$";
    var text := pre + t + body + t + ";" + post;
    assert text == pre + (t + (body + (t + (";" + post))));
    ScanPlain(pre, t + (body + (t + (";" + post))), "", Outside);
    assert "" + pre == pre;
    ScanToken(tagBody, body + (t + (";" + post)), pre, Outside);
    ScanPlain(body, t + (";" + post), pre + t, Inside(t));
    ScanToken(tagBody, ";" + post, pre + t + body, Inside(t));
    assert (";" + post)[1..] == post;
  }

  // ---------------------------------------------------------------------------
  // execute_sql_file
  // ---------------------------------------------------------------------------

  /** Python's `str.upper()` for the characters that can map onto the letters of
      the statement prefix being looked for: ASCII letters, dotless `ı` and long `ſ`. */
  function Upper(c: char): char {
    if 'a' <= c <= 'z' then (c as int - 32) as char
    else if c == '\U{131}' then 'I'
    else if c == '\U{17F}' then 'S'
    else c
  }

  /** `s.upper()` begins with `prefix`, where `prefix` is upper-case ASCII text
      (no character of `s` that upper-cases to several characters can produce a
      letter pair of the prefix). */
  predicate UpperStartsWith(s: string, prefix: string)
    decreases |prefix|
  {
    prefix == [] || (s != [] && Upper(s[0]) == prefix[0] && UpperStartsWith(s[1..], prefix[1..]))
  }

  const ConcurrentRefreshPrefix: string := "REFRESH " + "MATERIALIZED " + "VIEW " + "CONCURRENTLY"

  /** A statement that cannot run inside a transaction block: its stripped,
      upper-cased text starts with `ConcurrentRefreshPrefix`. Stripping the end
      cannot change whether the text starts with a prefix that ends in a letter,
      so only the leading white space is removed here. */
  predicate IsConcurrentRefresh(stmt: string) {
    UpperStartsWith(TrimLeft(stmt), ConcurrentRefreshPrefix)
  }

  /** What the destination connection is asked to do. */
  datatype Action = Commit | Execute(stmt: string, autocommit: bool)

  /** The actions for one statement: a concurrent refresh first commits the open
      transaction and runs with autocommit on; any other statement runs inside
      the transaction. */
  function StatementActions(stmt: string): seq<Action> {
    if IsConcurrentRefresh(stmt) then [Commit, Execute(stmt, true)] else [Execute(stmt, false)]
  }

  /** The actions of running `stmts` in order when the server rejects the
      statements in `failing`: the run stops at the first rejected statement
      (the error propagates and the final commit is never reached). */
  function RunActions(stmts: seq<string>, failing: set<string>): seq<Action>
  {
    if stmts == [] then [Commit]
    else if stmts[0] in failing then StatementActions(stmts[0])
    else StatementActions(stmts[0]) + RunActions(stmts[1..], failing)
  }

  predicate AllSucceed(stmts: seq<string>, failing: set<string>) {
    forall k :: 0 <= k < |stmts| ==> stmts[k] !in failing
  }

  /** A destination connection (psycopg2), reduced to its autocommit flag and
      the actions sent to it. */
  class PgSession {
    var autocommit: bool
    var actions: seq<Action>

    constructor ()
      ensures !autocommit && actions == []
    {
      autocommit := false;
      actions := [];
    }

    /** One statement of a script: a concurrent refresh leaves the open
        transaction first and runs in autocommit mode, which is then switched
        off again; any other statement runs inside the transaction. */
    method ExecuteStatement(stmt: string)
      requires !autocommit
      modifies this
      ensures !autocommit
      ensures actions == old(actions) + StatementActions(stmt)
    {
      if IsConcurrentRefresh(stmt) {
        actions := actions + [Commit];
        autocommit := true;
        actions := actions + [Execute(stmt, autocommit)];
        autocommit := false;
        AppendAssoc(old(actions), [Commit], [Execute(stmt, true)]);
      } else {
        actions := actions + [Execute(stmt, autocommit)];
      }
    }

    /** `execute_sql_file` on the script text already read from disk; the
        statements in `failing` raise when executed. */
    method ExecuteSqlFile(sqlText: string, failing: set<string>) returns (ok: bool)
      requires !autocommit
      modifies this
      ensures !autocommit
      ensures actions == old(actions) + RunActions(Statements(sqlText), failing)
      ensures ok <==> AllSucceed(Statements(sqlText), failing)
    {
      var stmts := SplitSqlStatements(sqlText);
      var i := 0;
      while i < |stmts|
        invariant 0 <= i <= |stmts|
        invariant !autocommit
        invariant forall k :: 0 <= k < i ==> stmts[k] !in failing
        invariant actions + RunActions(stmts[i..], failing) == old(actions) + RunActions(stmts, failing)
      {
        var stmt := stmts[i];
        ghost var before := actions;
        ExecuteStatement(stmt);
        if stmt in failing {
          RunActionsFailAt(stmts, i, failing);
          return false;
        }
        RunActionsPassAt(stmts, i, failing);
        AppendAssoc(before, StatementActions(stmt), RunActions(stmts[i + 1..], failing));
        i := i + 1;
      }
      assert stmts[i..] == [];
      actions := actions + [Commit];
      ok := true;
    }
  }

  lemma RunActionsFailAt(stmts: seq<string>, i: nat, failing: set<string>)
    requires i < |stmts| && stmts[i] in failing
    ensures RunActions(stmts[i..], failing) == StatementActions(stmts[i])
    ensures !AllSucceed(stmts, failing)
  {
    assert stmts[i..][0] == stmts[i];
  }

  lemma RunActionsPassAt(stmts: seq<string>, i: nat, failing: set<string>)
    requires i < |stmts| && stmts[i] !in failing
    ensures RunActions(stmts[i..], failing) == StatementActions(stmts[i]) + RunActions(stmts[i + 1..], failing)
  {
    assert stmts[i..][0] == stmts[i];
    assert stmts[i..][1..] == stmts[i + 1..];
  }

  /** Every execution runs in the mode its statement needs. */
  ghost predicate ModesMatch(acts: seq<Action>) {
    forall k :: 0 <= k < |acts| && acts[k].Execute? ==> acts[k].autocommit == IsConcurrentRefresh(acts[k].stmt)
  }

  /** An execution in autocommit mode directly follows a commit of the open
      transaction (so it is never the first action). */
  ghost predicate CommitBeforeAutocommit(acts: seq<Action>) {
    && (acts != [] ==> !(acts[0].Execute? && acts[0].autocommit))
    && (forall j :: 0 < j < |acts| && acts[j].Execute? && acts[j].autocommit ==> acts[j - 1] == Commit)
  }

  ghost predicate WellModed(acts: seq<Action>) {
    ModesMatch(acts) && CommitBeforeAutocommit(acts)
  }

  lemma ModesMatchAppend(a: seq<Action>, b: seq<Action>)
    requires ModesMatch(a) && ModesMatch(b)
    ensures ModesMatch(a + b)
  {
    var ab := a + b;
    forall k | 0 <= k < |ab| && ab[k].Execute?
      ensures ab[k].autocommit == IsConcurrentRefresh(ab[k].stmt)
    {
      if k >= |a| {
        assert ab[k] == b[k - |a|];
      }
    }
  }

  lemma CommitBeforeAutocommitAppend(a: seq<Action>, b: seq<Action>)
    requires CommitBeforeAutocommit(a) && CommitBeforeAutocommit(b)
    ensures CommitBeforeAutocommit(a + b)
  {
    var ab := a + b;
    forall j | 0 < j < |ab| && ab[j].Execute? && ab[j].autocommit
      ensures ab[j - 1] == Commit
    {
      if j > |a| {
        assert ab[j] == b[j - |a|] && ab[j - 1] == b[j - 1 - |a|];
      } else if j < |a| {
        assert ab[j] == a[j] && ab[j - 1] == a[j - 1];
      }
    }
  }

  lemma WellModedAppend(a: seq<Action>, b: seq<Action>)
    requires WellModed(a) && WellModed(b)
    ensures WellModed(a + b)
  {
    ModesMatchAppend(a, b);
    CommitBeforeAutocommitAppend(a, b);
  }

  lemma StatementActionsModes(stmt: string)
    ensures WellModed(StatementActions(stmt))
  {
    var acts := StatementActions(stmt);
    var refresh := IsConcurrentRefresh(stmt);
    assert acts == if refresh then [Commit, Execute(stmt, true)] else [Execute(stmt, false)];
    forall k | 0 <= k < |acts| && acts[k].Execute?
      ensures acts[k].autocommit == IsConcurrentRefresh(acts[k].stmt)
    {
      assert acts[k] == Execute(stmt, refresh);
    }
    forall j | 0 < j < |acts| && acts[j].Execute? && acts[j].autocommit
      ensures acts[j - 1] == Commit
    {
      assert refresh && j == 1;
    }
  }

  /** A concurrent refresh is always preceded by a commit and runs in
      autocommit mode; every other statement runs inside the transaction. */
  lemma {:induction false} RunActionsModes(stmts: seq<string>, failing: set<string>)
    ensures WellModed(RunActions(stmts, failing))
  {
    if stmts != [] {
      var head := StatementActions(stmts[0]);
      StatementActionsModes(stmts[0]);
      if stmts[0] !in failing {
        RunActionsModes(stmts[1..], failing);
        WellModedAppend(head, RunActions(stmts[1..], failing));
      }
    }
  }

  /** The script ends with a commit exactly when no statement failed; a failed
      script ends with the statement that failed, uncommitted. */
  lemma {:induction false} RunActionsEnd(stmts: seq<string>, failing: set<string>)
    ensures var acts := RunActions(stmts, failing);
      acts != [] &&
      (AllSucceed(stmts, failing) ==> acts[|acts| - 1] == Commit) &&
      (!AllSucceed(stmts, failing) ==> acts[|acts| - 1].Execute? && acts[|acts| - 1].stmt in failing)
  {
    if stmts != [] && stmts[0] !in failing {
      RunActionsEnd(stmts[1..], failing);
      assert AllSucceed(stmts, failing) <==> AllSucceed(stmts[1..], failing) by {
        if AllSucceed(stmts[1..], failing) {
          forall k | 0 <= k < |stmts| ensures stmts[k] !in failing {
            if k > 0 { assert stmts[k] == stmts[1..][k - 1]; }
          }
        }
      }
    }
  }
}
