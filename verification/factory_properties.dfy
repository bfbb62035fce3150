/** What `createWidgets` does with each kind of entry, and how it treats the list as a whole. */
module FactoryProperties {
  import opened Outcomes
  import opened WidgetFactory

  /** The pairs of a list determine its result: two results that both describe it are equal. */
  lemma DescribesUnique(xs: seq<Item>, r1: Result<seq<Entry>>, r2: Result<seq<Entry>>, toFloat: FloatParser)
    requires Describes(xs, r1, toFloat) && Describes(xs, r2, toFloat)
    ensures r1 == r2
  {
    if r1.Ok? {
      assert r2.Ok?;
      assert r1.value == r2.value;
    } else {
      assert r2.Err?;
      var i :| FirstFailure(xs, i, toFloat) && PairEntry(xs, i, toFloat) == Err(r1.error);
      var j :| FirstFailure(xs, j, toFloat) && PairEntry(xs, j, toFloat) == Err(r2.error);
      assert i == j;
    }
  }

  /** A list shorter than one pair yields nothing; in particular the one-element list the
      backward-compatibility path recurses on. */
  lemma NoCompletePair(xs: seq<Item>, toFloat: FloatParser)
    requires |xs| < 2
    ensures CreateWidgets(xs, toFloat) == Ok([])
  {
  }

  /** The pairs of the first of two lists, the first having even length, keep their index in
      the concatenation. */
  lemma PrefixPairs(xs: seq<Item>, ys: seq<Item>, n: nat, i: int, toFloat: FloatParser)
    requires |xs| == 2 * n && 0 <= i < n
    ensures |xs + ys| / 2 == n + |ys| / 2
    ensures PairEntry(xs + ys, i, toFloat) == PairEntry(xs, i, toFloat)
  {
    var zs := xs + ys;
    assert zs[2 * i] == xs[2 * i] && zs[2 * i + 1] == xs[2 * i + 1];
  }

  /** The pairs of the second list are shifted by the pair count of the first. */
  lemma SuffixPairs(xs: seq<Item>, ys: seq<Item>, n: nat, i: int, toFloat: FloatParser)
    requires |xs| == 2 * n && 0 <= i < |ys| / 2
    ensures |xs + ys| / 2 == n + |ys| / 2
    ensures PairEntry(xs + ys, n + i, toFloat) == PairEntry(ys, i, toFloat)
  {
    var zs := xs + ys;
    assert zs[2 * (n + i)] == ys[2 * i] && zs[2 * (n + i) + 1] == ys[2 * i + 1];
  }

  /** A trailing element without a partner is ignored. */
  lemma TrailingElementIgnored(xs: seq<Item>, x: Item, toFloat: FloatParser)
    requires |xs| % 2 == 0
    ensures CreateWidgets(xs + [x], toFloat) == CreateWidgets(xs, toFloat)
  {
    var ys := xs + [x];
    var n := |xs| / 2;
    assert |ys| / 2 == n;
    forall i | 0 <= i < n ensures PairEntry(ys, i, toFloat) == PairEntry(xs, i, toFloat) {
      PrefixPairs(xs, [x], n, i, toFloat);
    }
    assert Describes(xs, CreateWidgets(ys, toFloat), toFloat) by {
      var r := CreateWidgets(ys, toFloat);
      if r.Err? {
        var i :| FirstFailure(ys, i, toFloat) && PairEntry(ys, i, toFloat) == Err(r.error);
        assert FirstFailure(xs, i, toFloat);
      }
    }
    DescribesUnique(xs, CreateWidgets(ys, toFloat), CreateWidgets(xs, toFloat), toFloat);
  }

  /** When every pair of the first list builds, the first failure of the second list is the
      first failure of the concatenation. */
  lemma AppendFailure(xs: seq<Item>, ys: seq<Item>, n: nat, i: int, toFloat: FloatParser)
    requires |xs| == 2 * n && (forall j :: 0 <= j < n ==> PairEntry(xs, j, toFloat).Ok?)
    requires FirstFailure(ys, i, toFloat)
    ensures FirstFailure(xs + ys, n + i, toFloat) && PairEntry(xs + ys, n + i, toFloat) == PairEntry(ys, i, toFloat)
  {
    SuffixPairs(xs, ys, n, i, toFloat);
    forall j | 0 <= j < n + i ensures PairEntry(xs + ys, j, toFloat).Ok? {
      if j < n {
        PrefixPairs(xs, ys, n, j, toFloat);
      } else {
        SuffixPairs(xs, ys, n, j - n, toFloat);
      }
    }
  }

  /** The entries of two lists that build, one after the other, describe their concatenation. */
  lemma AppendEntries(xs: seq<Item>, ys: seq<Item>, n: nat, a: seq<Entry>, b: seq<Entry>, toFloat: FloatParser)
    requires |xs| == 2 * n && Describes(xs, Ok(a), toFloat) && Describes(ys, Ok(b), toFloat)
    ensures Describes(xs + ys, Ok(a + b), toFloat)
  {
    var zs := xs + ys;
    assert |zs| / 2 == n + |ys| / 2;
    assert |a| == n;
    forall i | 0 <= i < n ensures PairEntry(zs, i, toFloat).Ok? && (a + b)[i] == PairEntry(zs, i, toFloat).value {
      PrefixPairs(xs, ys, n, i, toFloat);
    }
    forall i | n <= i < |zs| / 2 ensures PairEntry(zs, i, toFloat).Ok? && (a + b)[i] == PairEntry(zs, i, toFloat).value {
      var j := i - n;
      SuffixPairs(xs, ys, n, j, toFloat);
      assert PairEntry(zs, i, toFloat) == PairEntry(ys, j, toFloat);
    }
  }

  /** A failure among the pairs of the first list is the failure of the concatenation. */
  lemma AppendFirstFails(xs: seq<Item>, ys: seq<Item>, toFloat: FloatParser)
    requires |xs| % 2 == 0 && CreateWidgets(xs, toFloat).Err?
    ensures CreateWidgets(xs + ys, toFloat) == CreateWidgets(xs, toFloat)
  {
    var a := CreateWidgets(xs, toFloat);
    var n := |xs| / 2;
    var i :| FirstFailure(xs, i, toFloat) && PairEntry(xs, i, toFloat) == Err(a.error);
    assert FirstFailure(xs + ys, i, toFloat) by {
      forall j | 0 <= j <= i ensures PairEntry(xs + ys, j, toFloat) == PairEntry(xs, j, toFloat) {
        PrefixPairs(xs, ys, n, j, toFloat);
      }
    }
    DescribesUnique(xs + ys, a, CreateWidgets(xs + ys, toFloat), toFloat);
  }

  /** When the first list builds, a failure among the pairs of the second is the failure of the
      concatenation. */
  lemma AppendSecondFails(xs: seq<Item>, ys: seq<Item>, toFloat: FloatParser)
    requires |xs| % 2 == 0 && CreateWidgets(xs, toFloat).Ok? && CreateWidgets(ys, toFloat).Err?
    ensures CreateWidgets(xs + ys, toFloat) == Err(CreateWidgets(ys, toFloat).error)
  {
    var b := CreateWidgets(ys, toFloat);
    var i :| FirstFailure(ys, i, toFloat) && PairEntry(ys, i, toFloat) == Err(b.error);
    AppendFailure(xs, ys, |xs| / 2, i, toFloat);
    DescribesUnique(xs + ys, Err(b.error), CreateWidgets(xs + ys, toFloat), toFloat);
  }

  /** When both lists build, the concatenation builds their entries one after the other. */
  lemma AppendBothBuild(xs: seq<Item>, ys: seq<Item>, toFloat: FloatParser)
    requires |xs| % 2 == 0 && CreateWidgets(xs, toFloat).Ok? && CreateWidgets(ys, toFloat).Ok?
    ensures CreateWidgets(xs + ys, toFloat) == Ok(CreateWidgets(xs, toFloat).value + CreateWidgets(ys, toFloat).value)
  {
    var a := CreateWidgets(xs, toFloat).value;
    var b := CreateWidgets(ys, toFloat).value;
    AppendEntries(xs, ys, |xs| / 2, a, b, toFloat);
    DescribesUnique(xs + ys, Ok(a + b), CreateWidgets(xs + ys, toFloat), toFloat);
  }

  /** Lists of pairs are processed independently and their entries concatenated in order;
      a failure in the first part wins over one in the second. */
  lemma AppendPairs(xs: seq<Item>, ys: seq<Item>, toFloat: FloatParser)
    requires |xs| % 2 == 0
    ensures var a := CreateWidgets(xs, toFloat); var b := CreateWidgets(ys, toFloat);
      CreateWidgets(xs + ys, toFloat) ==
        if a.Err? then a else if b.Err? then Err(b.error) else Ok(a.value + b.value)
  {
    if CreateWidgets(xs, toFloat).Err? {
      AppendFirstFails(xs, ys, toFloat);
    } else if CreateWidgets(ys, toFloat).Err? {
      AppendSecondFails(xs, ys, toFloat);
    } else {
      AppendBothBuild(xs, ys, toFloat);
    }
  }

  /** A single pair yields exactly its own entry, or its own error. */
  lemma SinglePair(title: Item, params: Item, toFloat: FloatParser)
    ensures CreateWidgets([title, params], toFloat)
         == match EntryOf(title, params, toFloat) case Ok(e) => Ok([e]) case Err(x) => Err(x)
  {
    var xs := [title, params];
    assert PairEntry(xs, 0, toFloat) == EntryOf(title, params, toFloat);
    var r := CreateWidgets(xs, toFloat);
    if r.Err? {
      var i :| FirstFailure(xs, i, toFloat) && PairEntry(xs, i, toFloat) == Err(r.error);
      assert i == 0;
    } else {
      assert r.value == [r.value[0]];
    }
  }

  /** A failing pair anywhere aborts the whole call: no partial list comes back. */
  lemma FailureAborts(xs: seq<Item>, i: int, toFloat: FloatParser)
    requires 0 <= i < |xs| / 2 && PairEntry(xs, i, toFloat).Err?
    ensures CreateWidgets(xs, toFloat).Err?
  {
  }

  /** A dropdown with options becomes a select titled by the second `.`-segment, showing the
      first option and offering exactly the given ones. */
  lemma DropdownWithOptions(title: string, params: Item, toFloat: FloatParser)
    requires Tag(title) == "dropdown" && HasName(title) && |AsList(params)| >= 1
    ensures CreateWidgets([Word(title), params], toFloat)
         == Ok([Widget(Select(Strings.Split(title, '.')[1], AsList(params)[0], AsList(params)))])
  {
    SinglePair(Word(title), params, toFloat);
  }

  /** A dropdown without options is an error, whether or not it is named. */
  lemma DropdownWithoutOptions(title: string, params: Item, toFloat: FloatParser)
    requires Tag(title) == "dropdown" && |AsList(params)| == 0
    ensures CreateWidgets([Word(title), params], toFloat)
         == Err(if '.' in title then EmptyDropdown else MissingName)
  {
    SinglePair(Word(title), params, toFloat);
  }

  /** A dropdown or slider title without a `.` raises `MissingName` whatever its parameters:
      `name[1]` is needed by the error message, or by the `title` keyword argument that is
      evaluated before any option is read or any parameter converted. */
  lemma UnnamedControlMissingName(title: string, params: Item, toFloat: FloatParser)
    requires Tag(title) == "dropdown" || Tag(title) == "slider"
    requires '.' !in title
    ensures CreateWidgets([Word(title), params], toFloat) == Err(MissingName)
  {
    HasNameIffDot(title);
    SinglePair(Word(title), params, toFloat);
  }

  /** A query entry always becomes the same empty text input titled "Query". */
  lemma QueryIgnoresNameAndParams(title: string, params: Item, toFloat: FloatParser)
    requires Tag(title) == "query"
    ensures CreateWidgets([Word(title), params], toFloat) == Ok([Widget(TextInput("Query", "", "Type a query"))])
  {
    SinglePair(Word(title), params, toFloat);
  }

  /** A named slider with 4 numeric parameters is a single slider (start, end, step, value). */
  lemma SliderWithFour(title: string, p0: Item, p1: Item, p2: Item, p3: Item, toFloat: FloatParser)
    requires Tag(title) == "slider" && HasName(title)
    requires Float(p0, toFloat).Some? && Float(p1, toFloat).Some? && Float(p2, toFloat).Some? && Float(p3, toFloat).Some?
    ensures CreateWidgets([Word(title), Group([p0, p1, p2, p3])], toFloat)
         == Ok([Widget(Slider(Name(title), Float(p0, toFloat).value, Float(p1, toFloat).value,
                              Float(p2, toFloat).value, Float(p3, toFloat).value))])
  {
    var ps := [p0, p1, p2, p3];
    var v := Floats(ps, toFloat);
    assert Float(ps[0], toFloat).Some? && Float(ps[1], toFloat).Some? && Float(ps[2], toFloat).Some? && Float(ps[3], toFloat).Some?;
    assert v.Some?;
    assert Float(ps[0], toFloat) == Some(v.value[0]);
    assert Float(ps[1], toFloat) == Some(v.value[1]);
    assert Float(ps[2], toFloat) == Some(v.value[2]);
    assert Float(ps[3], toFloat) == Some(v.value[3]);
    SinglePair(Word(title), Group(ps), toFloat);
  }

  /** A named slider with 5 numeric parameters is a range slider (start, end, step) with
      value (low, high). */
  lemma SliderWithFive(title: string, p0: Item, p1: Item, p2: Item, p3: Item, p4: Item, toFloat: FloatParser)
    requires Tag(title) == "slider" && HasName(title)
    requires Float(p0, toFloat).Some? && Float(p1, toFloat).Some? && Float(p2, toFloat).Some?
    requires Float(p3, toFloat).Some? && Float(p4, toFloat).Some?
    ensures CreateWidgets([Word(title), Group([p0, p1, p2, p3, p4])], toFloat)
         == Ok([Widget(RangeSlider(Name(title), Float(p0, toFloat).value, Float(p1, toFloat).value,
                                   Float(p2, toFloat).value, Float(p3, toFloat).value, Float(p4, toFloat).value))])
  {
    var ps := [p0, p1, p2, p3, p4];
    var v := Floats(ps, toFloat);
    assert Float(ps[0], toFloat).Some? && Float(ps[1], toFloat).Some? && Float(ps[2], toFloat).Some?;
    assert Float(ps[3], toFloat).Some? && Float(ps[4], toFloat).Some?;
    assert v.Some?;
    assert Float(ps[0], toFloat) == Some(v.value[0]);
    assert Float(ps[1], toFloat) == Some(v.value[1]);
    assert Float(ps[2], toFloat) == Some(v.value[2]);
    assert Float(ps[3], toFloat) == Some(v.value[3]);
    assert Float(ps[4], toFloat) == Some(v.value[4]);
    SinglePair(Word(title), Group(ps), toFloat);
  }

  /** A slider with any other number of parameters is an error. */
  lemma SliderWrongArity(title: string, params: Item, toFloat: FloatParser)
    requires Tag(title) == "slider" && |AsList(params)| != 4 && |AsList(params)| != 5
    ensures CreateWidgets([Word(title), params], toFloat)
         == Err(if '.' in title then SliderArity(|AsList(params)|) else MissingName)
  {
    SinglePair(Word(title), params, toFloat);
  }

  /** A slider with the right count but a parameter `float` rejects is an error. */
  lemma SliderNotNumeric(title: string, params: Item, toFloat: FloatParser)
    requires Tag(title) == "slider" && HasName(title)
    requires |AsList(params)| == 4 || |AsList(params)| == 5
    requires exists i :: 0 <= i < |AsList(params)| && Float(AsList(params)[i], toFloat).None?
    ensures CreateWidgets([Word(title), params], toFloat) == Err(NotANumber)
  {
    SinglePair(Word(title), params, toFloat);
  }

  /** Every other tag, `checkbox`, `tab` and `accordion` included, takes the
      backward-compatibility path, whose recursive call sees a one-element list and returns the
      empty list: that list, not a slider, becomes the entry, whatever the parameters. */
  lemma UnknownTagYieldsEmptyList(title: string, params: Item, toFloat: FloatParser)
    requires !IsKnownTag(Tag(title))
    ensures CreateWidgets([Word(title), params], toFloat) == Ok([Nested([])])
  {
    SinglePair(Word(title), params, toFloat);
  }

  /** A title `tag.name` with neither part containing a `.` has that tag and that name. */
  lemma TitleParts(tag: string, name: string)
    requires '.' !in tag && '.' !in name
    ensures Tag(tag + "." + name) == tag
    ensures HasName(tag + "." + name) && Name(tag + "." + name) == name
  {
    Strings.SplitJoin([tag, name], '.');
    assert Strings.Join([tag, name], '.') == tag + "." + name;
  }

  /** The disabled checkbox branch: a checkbox entry takes the same path as an unknown tag. */
  lemma CheckboxTakesFallback(name: string, params: Item, toFloat: FloatParser)
    ensures CreateWidgets([Word("checkbox." + name), params], toFloat) == Ok([Nested([])])
  {
    var t := "checkbox." + name;
    Strings.SplitPrefix("checkbox", name, '.');
    assert t == "checkbox" + ['.'] + name;
    UnknownTagYieldsEmptyList(t, params, toFloat);
  }

  /** `foo.X` is an unknown tag, so it yields the empty list whatever its parameters. */
  lemma FooTakesFallback(name: string, params: Item, toFloat: FloatParser)
    requires '.' !in name
    ensures CreateWidgets([Word("foo." + name), params], toFloat) == Ok([Nested([])])
  {
    TitleParts("foo", name);
    assert "foo." + name == "foo" + "." + name;
    UnknownTagYieldsEmptyList("foo." + name, params, toFloat);
  }

  /** `slider.X` with four numbers is a slider named X. */
  lemma NamedSlider(name: string, p0: Item, p1: Item, p2: Item, p3: Item, toFloat: FloatParser)
    requires '.' !in name
    requires Float(p0, toFloat).Some? && Float(p1, toFloat).Some? && Float(p2, toFloat).Some? && Float(p3, toFloat).Some?
    ensures CreateWidgets([Word("slider." + name), Group([p0, p1, p2, p3])], toFloat)
         == Ok([Widget(Slider(name, Float(p0, toFloat).value, Float(p1, toFloat).value,
                              Float(p2, toFloat).value, Float(p3, toFloat).value))])
  {
    TitleParts("slider", name);
    assert "slider." + name == "slider" + "." + name;
    SliderWithFour("slider." + name, p0, p1, p2, p3, toFloat);
  }

  /** An unknown tag is not treated like `slider`: `foo.X(p0,p1,p2,p3)` gives the empty list
      where `slider.X(p0,p1,p2,p3)` gives a slider named X. */
  lemma UnknownTagIsNotSlider(name: string, p0: Item, p1: Item, p2: Item, p3: Item, toFloat: FloatParser)
    requires '.' !in name
    requires Float(p0, toFloat).Some? && Float(p1, toFloat).Some? && Float(p2, toFloat).Some? && Float(p3, toFloat).Some?
    ensures CreateWidgets([Word("foo." + name), Group([p0, p1, p2, p3])], toFloat) == Ok([Nested([])])
    ensures CreateWidgets([Word("slider." + name), Group([p0, p1, p2, p3])], toFloat)
         == Ok([Widget(Slider(name, Float(p0, toFloat).value, Float(p1, toFloat).value,
                              Float(p2, toFloat).value, Float(p3, toFloat).value))])
  {
    FooTakesFallback(name, Group([p0, p1, p2, p3]), toFloat);
    NamedSlider(name, p0, p1, p2, p3, toFloat);
  }

  /** `name[1]` exists exactly when the title contains a `.`. */
  lemma HasNameIffDot(title: string)
    ensures HasName(title) <==> '.' in title
  {
  }
}
