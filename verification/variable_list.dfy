/** The `:`-separated list of variable names the drawer asks the tree extraction for: every
    distinct name once, in the iteration order of a Python set, which the model leaves open. */
module VariableList {
  import Strings

  /** `order` lists every name of `vars` exactly once (the iteration order of `set(vars)`). */
  ghost predicate Enumerates(order: seq<string>, vars: seq<string>)
  {
    && (forall i, j :: 0 <= i < j < |order| ==> order[i] != order[j])
    && (forall v :: v in order <==> v in vars)
  }

  /** The names after dropping the empty names in front: the loop adds no separator while the
      accumulated string is still empty, so those leave no trace. */
  function DropLeadingEmpty(names: seq<string>): (r: seq<string>)
    ensures r == [] || r[0] != ""
    decreases |names|
  {
    if |names| > 0 && names[0] == "" then DropLeadingEmpty(names[1..]) else names
  }

  /** Appending a name to the input appends it to the trimmed names, unless nothing non-empty
      came before it. */
  lemma {:induction false} DropLeadingEmptyAppend(names: seq<string>, v: string)
    ensures DropLeadingEmpty(names + [v]) ==
      if DropLeadingEmpty(names) == [] then (if v == "" then [] else [v]) else DropLeadingEmpty(names) + [v]
    decreases |names|
  {
    if |names| > 0 && names[0] == "" {
      assert (names + [v])[1..] == names[1..] + [v];
      DropLeadingEmptyAppend(names[1..], v);
    } else if |names| == 0 {
      assert names + [v] == [v];
    }
  }

  /** Joining one more part appends the separator and the part. */
  lemma {:induction false} JoinAppend(parts: seq<string>, v: string, sep: char)
    requires |parts| >= 1
    ensures Strings.Join(parts + [v], sep) == Strings.Join(parts, sep) + [sep] + v
    decreases |parts|
  {
    if |parts| == 1 {
      assert parts + [v] == [parts[0], v];
      assert [parts[0], v][1..] == [v];
    } else {
      assert (parts + [v])[1..] == parts[1..] + [v];
      JoinAppend(parts[1..], v, sep);
    }
  }

  /** Lines 64-67: start from the empty string and, for every name in set order, add a `:` when
      the string is non-empty and then the name. The result is the `:`-join of the names with
      the leading empty ones dropped; when no name is empty or contains a `:`, splitting it at
      `:` gives back every name once, in the order they were visited. */
  method JoinVariableList(vars: seq<string>, order: seq<string>) returns (joined: string)
    requires Enumerates(order, vars)
    ensures joined == Strings.Join(DropLeadingEmpty(order), ':')
    ensures |vars| > 0 && "" !in vars && (forall v :: v in vars ==> ':' !in v) ==>
      Strings.Split(joined, ':') == order
  {
    joined := "";
    for i := 0 to |order|
      invariant joined == Strings.Join(DropLeadingEmpty(order[..i]), ':')
    {
      DropLeadingEmptyAppend(order[..i], order[i]);
      assert order[..i + 1] == order[..i] + [order[i]];
      if |joined| > 0 {
        JoinAppend(DropLeadingEmpty(order[..i]), order[i], ':');
        joined := joined + ":";
      }
      joined := joined + order[i];
    }
    assert order[..|order|] == order;
    if |vars| > 0 && "" !in vars && (forall v :: v in vars ==> ':' !in v) {
      FieldsRoundTrip(vars, order);
    }
  }

  /** Without empty names and names containing `:`, the join splits back into the enumeration. */
  lemma FieldsRoundTrip(vars: seq<string>, order: seq<string>)
    requires Enumerates(order, vars)
    requires |vars| > 0 && "" !in vars && (forall v :: v in vars ==> ':' !in v)
    ensures Strings.Split(Strings.Join(DropLeadingEmpty(order), ':'), ':') == order
  {
    assert vars[0] in order;
    assert order[0] != "";
    Strings.SplitJoin(order, ':');
  }

  /** Whatever the set order, the fields of the joined list are exactly the distinct names. */
  lemma FieldsAreTheVariables(vars: seq<string>, order: seq<string>)
    requires Enumerates(order, vars)
    requires |vars| > 0 && "" !in vars && (forall v :: v in vars ==> ':' !in v)
    ensures var fields := Strings.Split(Strings.Join(DropLeadingEmpty(order), ':'), ':');
      && (forall f :: f in fields <==> f in vars)
      && (forall i, j :: 0 <= i < j < |fields| ==> fields[i] != fields[j])
  {
    FieldsRoundTrip(vars, order);
  }
}
