/**
  `BuildExpressionFromFields`: the jq filter that projects a list of field
  names, optionally applied to every element of an array.
*/
module ExpressionBuilder {
  import opened GoStrings

  /** What the filter is prefixed with when it is to run on each array element. */
  const ArrayPrefix: string := ".[] | "

  /** The filter for `fields`: identity, one field access, or an object construction. */
  function Expression(fields: seq<string>, isArray: bool): string
  {
    if |fields| == 0 then "."
    else if |fields| == 1 then (if isArray then ArrayPrefix + "." else ".") + fields[0]
    else (if isArray then ArrayPrefix else "") + "{" + Join(fields, ", ") + "}"
  }

  /** Builds the filter, accumulating the object construction one field at a time. */
  method BuildExpressionFromFields(fields: seq<string>, isArray: bool) returns (expr: string)
    ensures |fields| == 0 ==> expr == "."
    ensures |fields| == 1 && isArray ==> expr == ".[] | ." + fields[0]
    ensures |fields| == 1 && !isArray ==> expr == "." + fields[0]
    ensures |fields| >= 2 ==> expr == (if isArray then ".[] | " else "") + "{" + Join(fields, ", ") + "}"
    ensures expr == Expression(fields, isArray)
  {
    if |fields| == 0 {
      return ".";
    }
    if |fields| == 1 {
      if isArray {
        return ArrayPrefix + "." + fields[0];
      }
      return "." + fields[0];
    }
    expr := "{";
    for i := 0 to |fields|
      invariant i == 0 ==> expr == "{"
      invariant i > 0 ==> expr == "{" + Join(fields[..i], ", ")
    {
      if i > 0 {
        expr := expr + ", ";
        JoinSnoc(fields[..i], fields[i], ", ");
        assert fields[..i + 1] == fields[..i] + [fields[i]];
      }
      expr := expr + fields[i];
    }
    assert fields[..|fields|] == fields;
    expr := expr + "}";
    if isArray {
      return ArrayPrefix + expr;
    }
  }

  /** With two or more fields the array prefix is there exactly when it was asked for. */
  lemma ArrayPrefixIffArray(fields: seq<string>, isArray: bool)
    requires |fields| >= 2
    ensures var e := Expression(fields, isArray);
      (|e| >= |ArrayPrefix| && e[..|ArrayPrefix|] == ArrayPrefix) <==> isArray
  {
    var e := Expression(fields, isArray);
    if !isArray {
      assert e[0] == '{';
    } else {
      assert e[..|ArrayPrefix|] == ArrayPrefix;
    }
  }
}
