/** The widget factory of the standalone drawer (`createWidgets`): it reads an already-parsed
    widget description two elements at a time, as (title, params) pairs, and turns every pair
    into a control, or into the empty list its backward-compatibility path produces. */
module WidgetFactory {
  import opened Outcomes
  import Strings

  /** An element of the parsed widget description: a text token, or a list of elements
      (the parameters of a widget, or the children of a group). */
  datatype Item = Word(text: string) | Group(items: seq<Item>)

  /** The controls the factory instantiates; numbers are whatever `float` made of the tokens. */
  datatype Control =
    | Select(title: string, selected: Item, options: seq<Item>)
    | TextInput(title: string, text: string, placeholder: string)
    | Slider(title: string, start: real, end: real, step: real, value: real)
    | RangeSlider(title: string, start: real, end: real, step: real, low: real, high: real)

  /** One element of the factory's result: a control, or the list that the
      backward-compatibility path appends in place of a control. */
  datatype Entry = Widget(control: Control) | Nested(entries: seq<Entry>)

  /** The conversion `float` applies to a text token; `None` is the ValueError it raises.
      It is supplied by the caller because the model does not interpret floating point. */
  type FloatParser = string -> Option<real>

  /** The text input every `query` entry becomes, whatever its name and parameters. */
  const QueryBox: Control := TextInput("Query", "", "Type a query")

  /** Python's `list(x)`: a list gives its elements, a string its characters. */
  function AsList(x: Item): seq<Item>
  {
    match x
    case Group(items) => items
    case Word(s) => seq(|s|, i requires 0 <= i < |s| => Word([s[i]]))
  }

  /** Python's `float(x)`: a token goes through the parser, a list is a TypeError. */
  function Float(x: Item, toFloat: FloatParser): Option<real>
  {
    match x
    case Word(s) => toFloat(s)
    case Group(_) => None
  }

  /** The numbers of all parameters, converted in order, or `None` if any conversion fails. */
  function Floats(ps: seq<Item>, toFloat: FloatParser): (r: Option<seq<real>>)
    ensures r.Some? <==> forall i :: 0 <= i < |ps| ==> Float(ps[i], toFloat).Some?
    ensures r.Some? ==> |r.value| == |ps| && forall i :: 0 <= i < |ps| ==> Float(ps[i], toFloat) == Some(r.value[i])
    decreases |ps|
  {
    if |ps| == 0 then Some([])
    else match Float(ps[0], toFloat)
      case None => None
      case Some(v) =>
        match Floats(ps[1..], toFloat)
        case None => None
        case Some(vs) => Some([v] + vs)
  }

  /** The type tag: the part of the title before the first `.` (`name[0]`). */
  function Tag(title: string): string
  {
    Strings.Split(title, '.')[0]
  }

  /** Whether the title has a second `.`-segment, so that `name[1]` exists. */
  predicate HasName(title: string)
  {
    |Strings.Split(title, '.')| >= 2
  }

  /** The widget name: the second `.`-segment of the title (`name[1]`). */
  function Name(title: string): string
    requires HasName(title)
  {
    Strings.Split(title, '.')[1]
  }

  /** The tags with a branch of their own; every other tag takes the fallback. */
  predicate IsKnownTag(tag: string)
  {
    tag == "dropdown" || tag == "query" || tag == "slider"
  }

  /** A select over the given options; with no options the error message still needs `name[1]`. */
  function Dropdown(title: string, params: Item): Result<Control>
  {
    var values := AsList(params);
    if |values| == 0 then Err(if HasName(title) then EmptyDropdown else MissingName)
    else if !HasName(title) then Err(MissingName)
    else Ok(Select(Name(title), values[0], values))
  }

  /** A single slider from 4 parameters or a range slider from 5. The keyword arguments are
      evaluated in order, so `name[1]` is looked up before any parameter is converted. */
  function SliderFrom(title: string, params: Item, toFloat: FloatParser): Result<Control>
  {
    var ps := AsList(params);
    if |ps| != 4 && |ps| != 5 then Err(if HasName(title) then SliderArity(|ps|) else MissingName)
    else if !HasName(title) then Err(MissingName)
    else match Floats(ps, toFloat)
      case None => Err(NotANumber)
      case Some(v) =>
        if |ps| == 4 then Ok(Slider(Name(title), v[0], v[1], v[2], v[3]))
        else Ok(RangeSlider(Name(title), v[0], v[1], v[2], v[3], v[4]))
  }

  /** The control of an entry whose tag has a branch of its own. */
  function KnownControl(title: string, params: Item, toFloat: FloatParser): Result<Control>
    requires IsKnownTag(Tag(title))
  {
    match Tag(title)
    case "dropdown" => Dropdown(title, params)
    case "query" => Ok(QueryBox)
    case _ => SliderFrom(title, params, toFloat)
  }

  function AsEntry(c: Result<Control>): Result<Entry>
  {
    match c
    case Ok(control) => Ok(Widget(control))
    case Err(e) => Err(e)
  }

  /** Reference for one (title, params) pair: what `createWidgets` appends for it, with the
      fallback's recursive call replaced by its outcome, the empty list. */
  function EntryOf(title: Item, params: Item, toFloat: FloatParser): Result<Entry>
  {
    match title
    case Group(_) => Err(TitleNotText)
    case Word(t) =>
      if IsKnownTag(Tag(t)) then AsEntry(KnownControl(t, params, toFloat))
      else Ok(Nested([]))
  }

  /** The reference entry of the `i`-th complete pair of the flat list. */
  function PairEntry(xs: seq<Item>, i: int, toFloat: FloatParser): Result<Entry>
    requires 0 <= i < |xs| / 2
  {
    EntryOf(xs[2 * i], xs[2 * i + 1], toFloat)
  }

  /** `createWidgets`: one entry per complete (title, params) pair, in input order, a trailing
      unpaired element ignored; the first failing pair aborts the whole call. An unknown tag
      recurses on the one-element list `[["slider." + tag, params]]`, exactly as the source does. */
  function CreateWidgets(xs: seq<Item>, toFloat: FloatParser): (r: Result<seq<Entry>>)
    ensures Describes(xs, r, toFloat)
    decreases |xs|
  {
    if |xs| < 2 then Ok([])
    else
      var head: Result<Entry> := match xs[0]
        case Group(_) => Err(TitleNotText)
        case Word(t) =>
          if IsKnownTag(Tag(t)) then AsEntry(KnownControl(t, xs[1], toFloat))
          else
            match CreateWidgets([Group([Word("slider." + Tag(t)), xs[1]])], toFloat)
            case Ok(sub) => Ok(Nested(sub))
            case Err(e) => Err(e);
      assert head == PairEntry(xs, 0, toFloat);
      var rest := CreateWidgets(xs[2..], toFloat);
      DescribesCons(xs, rest, toFloat);
      if head.Err? then Err(head.error)
      else if rest.Err? then Err(rest.error)
      else Ok([head.value] + rest.value)
  }

  /** `r` is what the pairs of `xs` produce: success exactly when every complete pair succeeds,
      then one entry per pair in order; otherwise the error of the first failing pair. */
  ghost predicate Describes(xs: seq<Item>, r: Result<seq<Entry>>, toFloat: FloatParser)
  {
    && (r.Ok? <==> forall i :: 0 <= i < |xs| / 2 ==> PairEntry(xs, i, toFloat).Ok?)
    && (r.Ok? ==> |r.value| == |xs| / 2)
    && (r.Ok? ==> forall i :: 0 <= i < |xs| / 2 ==> r.value[i] == PairEntry(xs, i, toFloat).value)
    && (r.Err? ==> exists i :: FirstFailure(xs, i, toFloat) && PairEntry(xs, i, toFloat) == Err(r.error))
  }

  /** Pair `i` fails and every pair before it succeeds. */
  ghost predicate FirstFailure(xs: seq<Item>, i: int, toFloat: FloatParser)
  {
    && 0 <= i < |xs| / 2
    && PairEntry(xs, i, toFloat).Err?
    && forall j :: 0 <= j < i ==> PairEntry(xs, j, toFloat).Ok?
  }

  /** Dropping the first pair shifts every later pair down by one. */
  lemma TailPairs(xs: seq<Item>, i: int, toFloat: FloatParser)
    requires |xs| >= 2 && 0 <= i < |xs| / 2 - 1
    ensures |xs[2..]| / 2 == |xs| / 2 - 1
    ensures PairEntry(xs[2..], i, toFloat) == PairEntry(xs, i + 1, toFloat)
  {
    assert xs[2..][2 * i] == xs[2 * (i + 1)];
    assert xs[2..][2 * i + 1] == xs[2 * (i + 1) + 1];
  }

  /** When the first pair builds, the first failure of the remaining pairs is the first failure
      of all of them. */
  lemma ConsFailure(xs: seq<Item>, k: int, toFloat: FloatParser)
    requires |xs| >= 2 && PairEntry(xs, 0, toFloat).Ok?
    requires FirstFailure(xs[2..], k, toFloat)
    ensures FirstFailure(xs, k + 1, toFloat) && PairEntry(xs, k + 1, toFloat) == PairEntry(xs[2..], k, toFloat)
  {
    TailPairs(xs, k, toFloat);
    forall j | 0 <= j < k + 1 ensures PairEntry(xs, j, toFloat).Ok? {
      if j > 0 {
        TailPairs(xs, j - 1, toFloat);
      }
    }
  }

  /** When the first pair and the remaining pairs build, their entries are those of all pairs. */
  lemma ConsEntries(xs: seq<Item>, e: Entry, rest: seq<Entry>, toFloat: FloatParser)
    requires |xs| >= 2 && PairEntry(xs, 0, toFloat) == Ok(e)
    requires Describes(xs[2..], Ok(rest), toFloat)
    ensures Describes(xs, Ok([e] + rest), toFloat)
  {
    var r := [e] + rest;
    forall i | 0 <= i < |xs| / 2 ensures PairEntry(xs, i, toFloat).Ok? && r[i] == PairEntry(xs, i, toFloat).value {
      if i > 0 {
        TailPairs(xs, i - 1, toFloat);
      }
    }
  }

  /** The result for the first pair followed by the result for the remaining pairs describes
      the whole list. */
  lemma DescribesCons(xs: seq<Item>, rest: Result<seq<Entry>>, toFloat: FloatParser)
    requires |xs| >= 2
    requires Describes(xs[2..], rest, toFloat)
    ensures var head := PairEntry(xs, 0, toFloat);
      Describes(xs, if head.Err? then Err(head.error) else if rest.Err? then Err(rest.error)
                    else Ok([head.value] + rest.value), toFloat)
  {
    var head := PairEntry(xs, 0, toFloat);
    if head.Err? {
      assert FirstFailure(xs, 0, toFloat);
    } else if rest.Err? {
      var k :| FirstFailure(xs[2..], k, toFloat) && PairEntry(xs[2..], k, toFloat) == Err(rest.error);
      ConsFailure(xs, k, toFloat);
      assert !(forall i :: 0 <= i < |xs| / 2 ==> PairEntry(xs, i, toFloat).Ok?);
    } else {
      ConsEntries(xs, head.value, rest.value, toFloat);
    }
  }
}
