/**
  `extractFieldOrder`: recovers the output field order from a jq expression
  by reading the comma-separated text between its last `{` and its last `}`.
  The lemmas relate it to `BuildExpressionFromFields`, whose object
  constructions it reads back.
*/
module FieldOrder {
  import opened GoStrings
  import opened ExpressionBuilder

  /** The expression has a `{` that comes before its last `}` (the extractor's guard, negated). */
  predicate HasBracedText(expr: string)
  {
    var start := LastIndex(expr, '{');
    var end := LastIndex(expr, '}');
    start != -1 && end != -1 && start < end
  }

  /** The text strictly between the last `{` and the last `}`. */
  function BracedText(expr: string): (content: string)
    requires HasBracedText(expr)
    ensures '{' !in content
    ensures expr[LastIndex(expr, '{') + 1..LastIndex(expr, '}')] == content
  {
    var start := LastIndex(expr, '{');
    var end := LastIndex(expr, '}');
    assert expr[start + 1..end] == expr[start + 1..][..end - start - 1];
    expr[start + 1..end]
  }

  /** The field named by one comma-separated piece: trimmed, and cut before its first colon. */
  function EntryName(piece: string): string
  {
    var p := TrimSpace(piece);
    var colon := Index(p, ':');
    if colon != -1 then TrimSpace(p[..colon]) else p
  }

  /**
    What is read from a piece is trimmed and holds no colon; a piece with no
    colon is read as its trim.
  */
  lemma EntryNameFacts(piece: string)
    ensures Trimmed(EntryName(piece))
    ensures ':' !in EntryName(piece)
    ensures ':' !in TrimSpace(piece) ==> EntryName(piece) == TrimSpace(piece)
  {
    var p := TrimSpace(piece);
    var colon := Index(p, ':');
    if colon != -1 {
      NotInTrimSpace(p[..colon], ':');
    }
  }

  /** A piece whose trim has its first colon at `k` is read as the trim of what precedes that colon. */
  lemma EntryNameCut(piece: string, k: nat)
    requires var p := TrimSpace(piece); k < |p| && p[k] == ':' && ':' !in p[..k]
    ensures EntryName(piece) == TrimSpace(TrimSpace(piece)[..k])
  {
    IndexAt(TrimSpace(piece), ':', k);
  }

  /** `f` applied to each piece, in order. */
  function MapNames(f: string -> string, pieces: seq<string>): (names: seq<string>)
    ensures |names| == |pieces|
  {
    if |pieces| == 0 then [] else MapNames(f, pieces[..|pieces| - 1]) + [f(pieces[|pieces| - 1])]
  }

  /** Entry `i` of the mapped names is `f` of piece `i`. */
  lemma {:induction false} MapNamesAt(f: string -> string, pieces: seq<string>, i: nat)
    requires i < |pieces|
    ensures MapNames(f, pieces)[i] == f(pieces[i])
  {
    if i < |pieces| - 1 {
      MapNamesAt(f, pieces[..|pieces| - 1], i);
    }
  }

  /** The field order the extractor recovers from `expr`. */
  function FieldOrderOf(expr: string): (fields: seq<string>)
    ensures fields == [] <==> !HasBracedText(expr)
  {
    if !HasBracedText(expr) then []
    else
      MapNames(EntryName, Split(BracedText(expr), ','))
  }

  /** The extractor as written: the guard on the braces, then the split of the text between them. */
  method ExtractFieldOrder(expr: string) returns (fields: seq<string>)
    ensures fields == FieldOrderOf(expr)
  {
    var start := LastIndex(expr, '{');
    var end := LastIndex(expr, '}');
    if start == -1 || end == -1 || start >= end {
      return [];
    }
    var content := expr[start + 1..end];
    assert content == BracedText(expr);
    var parts := Split(content, ',');
    fields := CollectNames(parts);
  }

  /** The extractor's loop: one name appended per comma-separated piece. */
  method CollectNames(parts: seq<string>) returns (fields: seq<string>)
    ensures fields == MapNames(EntryName, parts)
  {
    fields := [];
    for i := 0 to |parts|
      invariant fields == MapNames(EntryName, parts[..i])
    {
      fields := fields + [EntryName(parts[i])];
      assert parts[..i + 1][..i] == parts[..i];
    }
    assert parts[..|parts|] == parts;
  }

  /**
    Output shape of the extractor: one entry per comma-separated piece of the
    braced text (so one more than its commas), entry `i` read from piece `i`.
  */
  lemma FieldOrderShape(expr: string)
    requires HasBracedText(expr)
    ensures var content := BracedText(expr); var fields := FieldOrderOf(expr);
      |fields| == multiset(content)[','] + 1 &&
      forall i :: 0 <= i < |fields| ==> fields[i] == EntryName(Split(content, ',')[i])
  {
    var content := BracedText(expr);
    var parts := Split(content, ',');
    SplitCount(content, ',');
    forall i | 0 <= i < |parts| ensures MapNames(EntryName, parts)[i] == EntryName(parts[i]) {
      MapNamesAt(EntryName, parts, i);
    }
  }

  /** A field name the builder and the extractor agree on. */
  predicate PlainField(f: string)
  {
    ',' !in f && ':' !in f && '{' !in f && '}' !in f && Trimmed(f)
  }

  /** A plain field reads back as itself, with or without the space the builder puts before it. */
  lemma EntryNameOfPlain(f: string)
    requires PlainField(f)
    ensures EntryName(f) == f
    ensures EntryName(" " + f) == f
  {
    TrimSpaceOfTrimmed(f);
    TrimSpaceAfterSpace(f);
  }

  /** In `pre + "{" + body + "}"` with no brace in `body`, the last braces are the two added ones. */
  lemma LastBraces(pre: string, body: string)
    requires '{' !in body && '}' !in body
    ensures var e := pre + "{" + body + "}";
      LastIndex(e, '{') == |pre| && LastIndex(e, '}') == |e| - 1 && e[|pre| + 1..|e| - 1] == body
  {
    var e := pre + "{" + body + "}";
    assert e[|pre|] == '{';
    assert e[|pre| + 1..] == body + "}";
    LastIndexAt(e, '{', |pre|);
    LastIndexAt(e, '}', |e| - 1);
    assert e[|pre| + 1..|e| - 1] == body;
  }

  /** The braced text of a built object construction is the joined field list. */
  lemma BracedTextOfBuilt(fields: seq<string>, isArray: bool)
    requires |fields| >= 2
    requires forall i :: 0 <= i < |fields| ==> '{' !in fields[i] && '}' !in fields[i]
    ensures HasBracedText(Expression(fields, isArray))
    ensures BracedText(Expression(fields, isArray)) == Join(fields, ", ")
  {
    var pre := if isArray then ArrayPrefix else "";
    var body := Join(fields, ", ");
    assert Expression(fields, isArray) == pre + "{" + body + "}";
    NotInJoin(fields, ", ", '{');
    NotInJoin(fields, ", ", '}');
    LastBraces(pre, body);
  }

  /** Splitting the joined field list at its commas leaves a space before every field but the first. */
  lemma SplitBuiltList(fields: seq<string>)
    requires |fields| >= 1
    requires forall i :: 0 <= i < |fields| ==> ',' !in fields[i]
    ensures Split(Join(fields, ", "), ',') == PrefixTail(fields, " ")
  {
    var parts := PrefixTail(fields, " ");
    JoinLongSeparator(fields, ',', " ");
    assert [','] + " " == ", ";
    CommaFreeTail(fields);
    SplitJoin(parts, ',');
  }

  /** A space in front of comma-free fields leaves them comma-free. */
  lemma CommaFreeTail(fields: seq<string>)
    requires forall i :: 0 <= i < |fields| ==> ',' !in fields[i]
    ensures forall i :: 0 <= i < |PrefixTail(fields, " ")| ==> ',' !in PrefixTail(fields, " ")[i]
  {
    var parts := PrefixTail(fields, " ");
    forall i | 0 <= i < |parts| ensures ',' !in parts[i] {
      PrefixTailAt(fields, " ", i);
    }
  }

  /** The names of the split field list are the fields themselves. */
  lemma NamesOfBuiltList(fields: seq<string>)
    requires forall i :: 0 <= i < |fields| ==> PlainField(fields[i])
    ensures MapNames(EntryName, PrefixTail(fields, " ")) == fields
  {
    var parts := PrefixTail(fields, " ");
    var r := MapNames(EntryName, parts);
    if |fields| > 0 {
      PrefixTailAt(fields, " ", 0);
    }
    forall i | 0 <= i < |fields| ensures r[i] == fields[i] {
      PrefixTailAt(fields, " ", i);
      MapNamesAt(EntryName, parts, i);
      EntryNameOfPlain(fields[i]);
    }
  }

  /**
    Partial round trip: the extractor reads back, in order, the fields that
    the builder put into an object construction.
  */
  lemma ExtractBuiltFields(fields: seq<string>, isArray: bool)
    requires |fields| >= 2
    requires forall i :: 0 <= i < |fields| ==> PlainField(fields[i])
    ensures FieldOrderOf(Expression(fields, isArray)) == fields
  {
    var e := Expression(fields, isArray);
    BracedTextOfBuilt(fields, isArray);
    SplitBuiltList(fields);
    NamesOfBuiltList(fields);
    calc {
      FieldOrderOf(e);
      MapNames(EntryName, Split(BracedText(e), ','));
      MapNames(EntryName, Split(Join(fields, ", "), ','));
      MapNames(EntryName, PrefixTail(fields, " "));
      fields;
    }
  }

  /** With fewer than two plain fields the builder writes no braces, so nothing is read back. */
  lemma ExtractBuiltSmall(fields: seq<string>, isArray: bool)
    requires |fields| <= 1
    requires forall i :: 0 <= i < |fields| ==> PlainField(fields[i])
    ensures FieldOrderOf(Expression(fields, isArray)) == []
  {
    var e := Expression(fields, isArray);
    if |fields| == 1 {
      assert '{' !in e by {
        assert e == (if isArray then ArrayPrefix + "." else ".") + fields[0];
      }
    }
  }
}
