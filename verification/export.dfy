/** JSON export (js/modules/export.js): `exportAsJSON` builds the payload of
    the download (export date, number of message records, the records) and
    names the file after `sanitizeFilename` of the chat name. */
module Export {
  import opened Wrappers
  import opened Text
  import opened Parser

  /** The object handed to `JSON.stringify`. */
  datatype Payload = Payload(exportDate: string, messageCount: nat, messages: seq<Record>)

  /** What `exportAsJSON` produces: the download name and the payload. */
  datatype Download = Download(fileName: string, payload: Payload)

  /** The default `filename` argument. */
  const DefaultName := "chat"

  /** `exportAsJSON(messages, filename)`, with the wall-clock time passed in
      as `exportDate` and `None` for an omitted `filename`, which then
      defaults to `chat`: the payload carries every record and counts the
      message records among them; the file is named after the sanitized
      chat name. */
  function ExportAsJson(records: seq<Record>, filename: Option<string>, exportDate: string): (d: Download)
    ensures d.payload.messages == records && d.payload.exportDate == exportDate
    ensures d.payload.messageCount == |MessageIndices(records)|
    ensures filename.Some? ==> d.fileName == SanitizeFilename(filename.value) + "_export.json"
    ensures filename.None? ==> d.fileName == SanitizeFilename(DefaultName) + "_export.json"
  {
    MessageCount(records);
    var payload := Payload(exportDate, |MessagesOf(records)|, records);
    match filename
    case Some(name) => Download(SanitizeFilename(name) + "_export.json", payload)
    case None => Download(SanitizeFilename(DefaultName) + "_export.json", payload)
  }

  /** The default name is already a safe file name, so an export without a
      name is called `chat_export.json`. */
  lemma DefaultNameSafe()
    ensures SanitizeFilename(DefaultName) == DefaultName
    ensures ExportAsJson([], None, "").fileName == "chat_export.json"
  {
    SafeFixed(DefaultName);
  }

  // ---------------------------------------------------------------------
  // messageCount

  /** The positions of the message records. */
  ghost function MessageIndices(rs: seq<Record>): set<nat>
  {
    set i: nat | i < |rs| && rs[i].Message?
  }

  /** `filter(m => m.type === 'message').length` is the number of positions
      holding a message record. */
  lemma {:induction false} MessageCount(rs: seq<Record>)
    ensures |MessagesOf(rs)| == |MessageIndices(rs)|
  {
    if rs != [] {
      var init, last := rs[..|rs| - 1], rs[|rs| - 1];
      MessageCount(init);
      assert rs == init + [last];
      MessagesOfAppend(init, [last]);
      assert |MessagesOf([last])| == if last.Message? then 1 else 0 by {
        assert [last][1..] == [];
      }
      if last.Message? {
        assert MessageIndices(rs) == MessageIndices(init) + {|init|};
      } else {
        assert MessageIndices(rs) == MessageIndices(init);
      }
    }
  }

  lemma {:induction false} MessagesOfAppend(a: seq<Record>, b: seq<Record>)
    ensures MessagesOf(a + b) == MessagesOf(a) + MessagesOf(b)
  {
    if a != [] {
      assert (a + b)[1..] == a[1..] + b;
      MessagesOfAppend(a[1..], b);
    } else {
      assert a + b == b;
    }
  }

  // ---------------------------------------------------------------------
  // sanitizeFilename

  /** `replace(/[^a-z0-9]/gi, '_')`: every character that is not an ASCII
      letter or digit becomes an underscore. */
  function ReplaceNonAlnum(s: string): (r: string)
    ensures |r| == |s|
  {
    seq(|s|, i requires 0 <= i < |s| => if IsAlnum(s[i]) then s[i] else '_')
  }

  /** `replace(/_+/g, '_')`: every run of underscores becomes one. */
  function CollapseUnderscores(s: string): (r: string)
    ensures |r| <= |s|
  {
    if |s| <= 1 then s
    else if s[0] == '_' && s[1] == '_' then CollapseUnderscores(s[1..])
    else [s[0]] + CollapseUnderscores(s[1..])
  }

  /** `replace(/^_|_$/g, '')`: one underscore is dropped at the start and
      one at the end. */
  function TrimUnderscores(s: string): (r: string)
  {
    var t := if s != [] && s[0] == '_' then s[1..] else s;
    if t != [] && t[|t| - 1] == '_' then t[..|t| - 1] else t
  }

  /** `sanitizeFilename(filename)`. */
  function SanitizeFilename(filename: string): (r: string)
    ensures |r| <= |filename|
  {
    Lower(TrimUnderscores(CollapseUnderscores(ReplaceNonAlnum(filename))))
  }

  // ---------------------------------------------------------------------
  // What a sanitized name looks like

  predicate IsNameChar(c: char)
  {
    IsLower(c) || IsDigit(c) || c == '_'
  }

  predicate NoDoubleUnderscore(s: string)
  {
    forall i :: 0 <= i < |s| - 1 ==> !(s[i] == '_' && s[i + 1] == '_')
  }

  /** Lower-case letters, digits and single underscores between them. */
  predicate SafeName(s: string)
  {
    && (forall i :: 0 <= i < |s| ==> IsNameChar(s[i]))
    && NoDoubleUnderscore(s)
    && (s != [] ==> s[0] != '_' && s[|s| - 1] != '_')
  }

  /** The letters and digits of `s`, in order. */
  function Alnums(s: string): (r: string)
  {
    if s == [] then [] else (if IsAlnum(s[0]) then [s[0]] else []) + Alnums(s[1..])
  }

  /** `s` without its underscores. */
  function Unscored(s: string): (r: string)
  {
    if s == [] then [] else (if s[0] != '_' then [s[0]] else []) + Unscored(s[1..])
  }

  /** Every sanitized name is safe. */
  lemma SanitizeSafe(filename: string)
    ensures SafeName(SanitizeFilename(filename))
  {
    var a := ReplaceNonAlnum(filename);
    var b := CollapseUnderscores(a);
    assert forall i :: 0 <= i < |a| ==> IsAlnum(a[i]) || a[i] == '_';
    CollapseKeeps(a);
    forall i | 0 <= i < |b| ensures IsAlnum(b[i]) || b[i] == '_' {
      assert b[i] in a;
    }
    CollapseSingle(a);
    var c := TrimUnderscores(b);
    TrimSafe(b);
    LowerSafe(c);
  }

  /** The letters and digits of the name survive, lower-cased and in order;
      only underscores are added between them. */
  lemma SanitizeKeepsAlnums(filename: string)
    ensures Unscored(SanitizeFilename(filename)) == Lower(Alnums(filename))
  {
    var a := ReplaceNonAlnum(filename);
    var b := CollapseUnderscores(a);
    var c := TrimUnderscores(b);
    UnscoredReplace(filename);
    UnscoredCollapse(a);
    UnscoredTrim(b);
    UnscoredLower(c);
  }

  /** The name is empty exactly when the chat name has no letter or digit. */
  lemma SanitizeEmptyIff(filename: string)
    ensures SanitizeFilename(filename) == [] <==> Alnums(filename) == []
  {
    var r := SanitizeFilename(filename);
    SanitizeKeepsAlnums(filename);
    SanitizeSafe(filename);
    if r != [] {
      UnscoredFirst(r);
    }
  }

  /** Sanitizing a sanitized name changes nothing. */
  lemma SanitizeIdempotent(filename: string)
    ensures SanitizeFilename(SanitizeFilename(filename)) == SanitizeFilename(filename)
  {
    var r := SanitizeFilename(filename);
    SanitizeSafe(filename);
    SafeFixed(r);
  }

  /** A safe name is its own sanitization. */
  lemma SafeFixed(s: string)
    requires SafeName(s)
    ensures SanitizeFilename(s) == s
  {
    assert ReplaceNonAlnum(s) == s;
    CollapseNoDouble(s);
    assert Lower(s) == s;
  }

  // ---------------------------------------------------------------------
  // Helpers

  /** Collapsing brings in no new character. */
  lemma {:induction false} CollapseKeeps(s: string)
    ensures forall c :: c in CollapseUnderscores(s) ==> c in s
  {
    if |s| > 1 {
      CollapseKeeps(s[1..]);
    }
  }

  /** After collapsing, no two underscores are adjacent, and the first
      character is kept or, for a run, stays an underscore. */
  lemma {:induction false} CollapseSingle(s: string)
    ensures NoDoubleUnderscore(CollapseUnderscores(s))
    ensures |s| > 0 ==> |CollapseUnderscores(s)| > 0 && CollapseUnderscores(s)[0] == s[0]
  {
    if |s| > 1 {
      CollapseSingle(s[1..]);
      var t := CollapseUnderscores(s[1..]);
      if !(s[0] == '_' && s[1] == '_') {
        var r := [s[0]] + t;
        assert r[1] == t[0] == s[1];
        forall i | 0 <= i < |r| - 1 ensures !(r[i] == '_' && r[i + 1] == '_') {
          if i > 0 {
            assert r[i] == t[i - 1] && r[i + 1] == t[i];
          }
        }
      }
    }
  }

  lemma {:induction false} CollapseNoDouble(s: string)
    requires NoDoubleUnderscore(s)
    ensures CollapseUnderscores(s) == s
  {
    if |s| > 1 {
      assert NoDoubleUnderscore(s[1..]) by {
        forall i | 0 <= i < |s[1..]| - 1 ensures !(s[1..][i] == '_' && s[1..][i + 1] == '_') {
          assert s[1..][i] == s[i + 1] && s[1..][i + 1] == s[i + 2];
        }
      }
      CollapseNoDouble(s[1..]);
      assert !(s[0] == '_' && s[1] == '_');
      assert s == [s[0]] + s[1..];
    }
  }

  lemma TrimSafe(s: string)
    requires forall i :: 0 <= i < |s| ==> IsAlnum(s[i]) || s[i] == '_'
    requires NoDoubleUnderscore(s)
    ensures var r := TrimUnderscores(s);
      && (forall i :: 0 <= i < |r| ==> IsAlnum(r[i]) || r[i] == '_')
      && NoDoubleUnderscore(r)
      && (r != [] ==> r[0] != '_' && r[|r| - 1] != '_')
  {
    var t := if s != [] && s[0] == '_' then s[1..] else s;
    assert t != [] && s != [] && s[0] == '_' ==> t[0] == s[1] != '_';
    var r := TrimUnderscores(s);
    if r != [] && t != [] && t[|t| - 1] == '_' {
      assert |t| >= 2;
      assert r[|r| - 1] == t[|t| - 2];
      if s != [] && s[0] == '_' {
        assert t[|t| - 2] == s[|s| - 2] && s[|s| - 1] == '_';
      } else {
        assert t[|t| - 2] == s[|s| - 2] && s[|s| - 1] == '_';
      }
    }
    assert forall i :: 0 <= i < |t| - 1 ==> !(t[i] == '_' && t[i + 1] == '_') by {
      if s != [] && s[0] == '_' {
        assert forall i :: 0 <= i < |t| ==> t[i] == s[i + 1];
      }
    }
  }

  lemma LowerSafe(s: string)
    requires forall i :: 0 <= i < |s| ==> IsAlnum(s[i]) || s[i] == '_'
    requires NoDoubleUnderscore(s)
    requires s != [] ==> s[0] != '_' && s[|s| - 1] != '_'
    ensures SafeName(Lower(s))
  {
    assert forall i :: 0 <= i < |s| ==> (Lower(s)[i] == '_' <==> s[i] == '_');
  }

  lemma {:induction false} UnscoredAppend(a: string, b: string)
    ensures Unscored(a + b) == Unscored(a) + Unscored(b)
  {
    if a != [] {
      assert (a + b)[1..] == a[1..] + b;
      UnscoredAppend(a[1..], b);
    } else {
      assert a + b == b;
    }
  }

  lemma {:induction false} UnscoredReplace(s: string)
    ensures Unscored(ReplaceNonAlnum(s)) == Alnums(s)
  {
    if s != [] {
      UnscoredReplace(s[1..]);
      assert ReplaceNonAlnum(s)[1..] == ReplaceNonAlnum(s[1..]);
    }
  }

  lemma {:induction false} UnscoredCollapse(s: string)
    ensures Unscored(CollapseUnderscores(s)) == Unscored(s)
  {
    if |s| > 1 {
      UnscoredCollapse(s[1..]);
      if !(s[0] == '_' && s[1] == '_') {
        var t := CollapseUnderscores(s[1..]);
        assert ([s[0]] + t)[1..] == t;
      }
    }
  }

  lemma UnscoredTrim(s: string)
    ensures Unscored(TrimUnderscores(s)) == Unscored(s)
  {
    var t := if s != [] && s[0] == '_' then s[1..] else s;
    if s != [] && s[0] == '_' {
      assert Unscored(s) == Unscored(t);
    }
    if t != [] && t[|t| - 1] == '_' {
      var u := t[..|t| - 1];
      assert t == u + ['_'];
      UnscoredAppend(u, ['_']);
      assert Unscored(['_']) == [] by {
        assert ['_'][1..] == [];
      }
    }
  }

  lemma {:induction false} UnscoredLower(s: string)
    ensures Unscored(Lower(s)) == Lower(Unscored(s))
  {
    if s != [] {
      UnscoredLower(s[1..]);
      assert Lower(s)[1..] == Lower(s[1..]);
      LowerAppend(if s[0] != '_' then [s[0]] else [], Unscored(s[1..]));
    }
  }

  lemma LowerAppend(a: string, b: string)
    ensures Lower(a + b) == Lower(a) + Lower(b)
  {
  }

  /** A non-empty name that starts with a letter or digit keeps it. */
  lemma UnscoredFirst(s: string)
    requires s != [] && s[0] != '_'
    ensures Unscored(s) != []
  {
  }
}
