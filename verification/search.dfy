/** Message search (js/modules/search.js): `SearchManager.search` lists the
    positions of the message records whose content or sender includes the
    query, ignoring case; `escapeRegex` escapes a query for use inside a
    regular expression. */
module Search {
  import opened Text
  import opened Parser

  /** The test `search` applies to one record: a message whose lower-cased
      content, or else whose lower-cased sender, includes the lower-cased
      query. The query is lower-cased but not trimmed. */
  predicate Hit(r: Record, query: string)
  {
    r.Message? && (Contains(Lower(r.content), Lower(query)) || Contains(Lower(r.sender), Lower(query)))
  }

  /** `search(messages, query)`. A query that is empty or white space only
      finds nothing. Otherwise the result lists, in increasing order and
      each once, exactly the positions of the records that `Hit` the
      query. */
  method Search(records: seq<Record>, query: string) returns (results: seq<nat>)
    ensures Trim(query) == [] ==> results == []
    ensures Trim(query) != [] ==>
      forall i :: 0 <= i < |records| ==> (i in results <==> Hit(records[i], query))
    ensures forall k :: 0 <= k < |results| ==> results[k] < |records|
    ensures forall k, l :: 0 <= k < l < |results| ==> results[k] < results[l]
  {
    if query == [] || Trim(query) == [] {
      return [];
    }
    var lowerQuery := Lower(query);
    results := [];
    for index := 0 to |records|
      invariant results == Hits(records[..index], query)
    {
      var hit := Test(records[index], lowerQuery);
      assert records[..index + 1][..index] == records[..index];
      if hit {
        results := results + [index];
      }
    }
    assert records[..|records|] == records;
    HitsSpec(records, query);
  }

  /** The positions of the records that `Hit` the query, in order. */
  function Hits(records: seq<Record>, query: string): seq<nat>
  {
    if records == [] then []
    else Hits(records[..|records| - 1], query) + (if Hit(records[|records| - 1], query) then [|records| - 1] else [])
  }

  /** `Hits` lists each hit once, in increasing order, and nothing else. */
  lemma {:induction false} HitsSpec(records: seq<Record>, query: string)
    ensures forall k :: 0 <= k < |Hits(records, query)| ==> Hits(records, query)[k] < |records|
    ensures forall k, l :: 0 <= k < l < |Hits(records, query)| ==> Hits(records, query)[k] < Hits(records, query)[l]
    ensures forall i :: 0 <= i < |records| ==> (i in Hits(records, query) <==> Hit(records[i], query))
  {
    if records != [] {
      var front := records[..|records| - 1];
      HitsSpec(front, query);
      assert forall i :: 0 <= i < |front| ==> front[i] == records[i];
    }
  }

  /** The body of the `forEach`: the content is tried first, then the
      sender, against the lower-cased query. */
  method Test(msg: Record, lowerQuery: string) returns (hit: bool)
    ensures forall query :: lowerQuery == Lower(query) ==> (hit <==> Hit(msg, query))
  {
    hit := false;
    if msg.Message? {
      if Contains(Lower(msg.content), lowerQuery) {
        return true;
      }
      if Contains(Lower(msg.sender), lowerQuery) {
        return true;
      }
    }
  }

  // ---------------------------------------------------------------------
  // Properties of the search test

  /** The case of the query does not matter. */
  lemma HitIgnoresCase(r: Record, query: string)
    ensures Hit(r, Upper(query)) <==> Hit(r, query)
    ensures Trim(Upper(query)) == [] <==> Trim(query) == []
  {
    LowerOfUpper(query);
    TrimUpper(query);
  }

  /** Narrowing the query never adds a result: a record found by a query is
      found by every piece of it. */
  lemma HitNarrows(r: Record, query: string, piece: string)
    requires Contains(query, piece)
    ensures Hit(r, query) ==> Hit(r, piece)
  {
    ContainsLower(query, piece);
    if r.Message? {
      if Contains(Lower(r.content), Lower(query)) {
        ContainsTrans(Lower(r.content), Lower(query), Lower(piece));
      }
      if Contains(Lower(r.sender), Lower(query)) {
        ContainsTrans(Lower(r.sender), Lower(query), Lower(piece));
      }
    }
  }

  /** Lower-casing keeps a piece a piece. */
  lemma ContainsLower(s: string, q: string)
    requires Contains(s, q)
    ensures Contains(Lower(s), Lower(q))
  {
    ContainsIff(s, q);
    var i :| OccursAt(s, q, i);
    assert Lower(s)[i..i + |q|] == Lower(s[i..i + |q|]);
    ContainsIff(Lower(s), Lower(q));
    assert OccursAt(Lower(s), Lower(q), i);
  }

  /** A piece of a piece is a piece. */
  lemma ContainsTrans(s: string, t: string, u: string)
    requires Contains(s, t) && Contains(t, u)
    ensures Contains(s, u)
  {
    ContainsIff(s, t);
    ContainsIff(t, u);
    var i :| OccursAt(s, t, i);
    var j :| OccursAt(t, u, j);
    forall k | 0 <= k < |u| ensures s[i + j + k] == u[k] {
      assert u[k] == t[j..j + |u|][k] == t[j + k];
      assert t[j + k] == s[i..i + |t|][j + k] == s[i + j + k];
    }
    assert s[i + j..i + j + |u|] == u;
    ContainsIff(s, u);
    assert OccursAt(s, u, i + j);
  }

  // ---------------------------------------------------------------------
  // escapeRegex

  /** The characters `escapeRegex` escapes: `. * + ? ^ $ { } ( ) | [ ] \`. */
  predicate IsSyntax(c: char)
  {
    c in {'.', '*', '+', '?', '^', '$', '{', '}', '(', ')', '|', '[', ']', '\\'}
  }

  /** The number of syntax characters in `s`. */
  function SyntaxCount(s: string): (n: nat)
    ensures n <= |s|
  {
    if s == [] then 0 else (if IsSyntax(s[0]) then 1 else 0) + SyntaxCount(s[1..])
  }

  /** `escapeRegex(string)`: every syntax character gets a backslash in
      front, every other character is kept, so the result is longer by
      exactly the number of syntax characters. */
  function EscapeRegex(s: string): (r: string)
    ensures |r| == |s| + SyntaxCount(s)
    ensures |s| <= |r| <= 2 * |s|
  {
    if s == [] then []
    else (if IsSyntax(s[0]) then ['\\', s[0]] else [s[0]]) + EscapeRegex(s[1..])
  }

  /** A pattern that matches only itself, literally: every syntax character
      in it is a backslash escape of a syntax character. */
  ghost predicate Literal(p: string)
  {
    if p == [] then true
    else if p[0] == '\\' then |p| >= 2 && IsSyntax(p[1]) && Literal(p[2..])
    else !IsSyntax(p[0]) && Literal(p[1..])
  }

  /** Reading a pattern back: `\c` stands for `c`. */
  function Unescape(p: string): (s: string)
    ensures |s| <= |p|
  {
    if p == [] then []
    else if p[0] == '\\' && |p| >= 2 then [p[1]] + Unescape(p[2..])
    else [p[0]] + Unescape(p[1..])
  }

  /** The escaped query is a literal pattern and reads back as the query. */
  lemma {:induction false} EscapeRegexLiteral(s: string)
    ensures Literal(EscapeRegex(s))
    ensures Unescape(EscapeRegex(s)) == s
  {
    if s != [] {
      EscapeRegexLiteral(s[1..]);
      var r := EscapeRegex(s[1..]);
      if IsSyntax(s[0]) {
        assert (['\\', s[0]] + r)[2..] == r;
      } else {
        assert ([s[0]] + r)[1..] == r;
      }
    }
  }

  /** Every literal pattern is the escape of what it reads back as: the
      escaped strings are exactly the literal patterns. */
  lemma {:induction false} LiteralIsEscape(p: string)
    requires Literal(p)
    ensures EscapeRegex(Unescape(p)) == p
  {
    if p != [] {
      if p[0] == '\\' {
        LiteralIsEscape(p[2..]);
        assert p == ['\\', p[1]] + p[2..];
      } else {
        LiteralIsEscape(p[1..]);
        assert p == [p[0]] + p[1..];
      }
    }
  }

  /** Escaping works character by character. */
  lemma {:induction false} EscapeRegexAppend(a: string, b: string)
    ensures EscapeRegex(a + b) == EscapeRegex(a) + EscapeRegex(b)
  {
    if a != [] {
      assert (a + b)[0] == a[0] && (a + b)[1..] == a[1..] + b;
      EscapeRegexAppend(a[1..], b);
      var head := if IsSyntax(a[0]) then ['\\', a[0]] else [a[0]];
      calc {
        EscapeRegex(a + b);
        head + EscapeRegex(a[1..] + b);
        head + (EscapeRegex(a[1..]) + EscapeRegex(b));
        (head + EscapeRegex(a[1..])) + EscapeRegex(b);
      }
    } else {
      assert a + b == b;
    }
  }
}
