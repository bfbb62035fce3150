/** `initWidgets` of the standalone drawer: parse the widget string (recovering from a parse
    failure with an empty list), build the controls, register them by title next to the two
    data sources, and attach one shared callback to every control. */
module WidgetSetup {
  import opened Outcomes
  import opened WidgetFactory

  /** What the registry maps a title to: one of the two data sources it is seeded with
      (`cdsOrig`, the full data, and `cdsSel`, the current selection), or a control. */
  datatype Slot = OriginalSource | SelectedSource | Registered(control: Control)

  /** A callback attached to a control for changes of the named property. */
  datatype Handler<CB> = Handler(property: string, callback: CB)

  /** A control together with the callbacks attached by `js_on_change` and `js_on_event`. */
  datatype Wired<CB> = Wired(control: Control, onChange: seq<Handler<CB>>, onEvent: seq<Handler<CB>>)

  /** The outcome of the setup: the registry the callback was generated from, that callback,
      and the column of wired controls. */
  datatype Setup<CB> = Setup(registry: map<string, Slot>, callback: CB, column: seq<Wired<CB>>)

  /** The widget-string parser; `None` stands for the exception it raises. */
  type WidgetParser = string -> Option<seq<Item>>

  /** The registry before any control is registered. */
  const Seed: map<string, Slot> := map["cdsOrig" := OriginalSource, "cdsSel" := SelectedSource]

  /** The titles of the controls among the entries. */
  ghost function Titles(entries: seq<Entry>): set<string>
  {
    set i | 0 <= i < |entries| && entries[i].Widget? :: entries[i].control.title
  }

  /** Entry `i` is a control and no later control has its title. */
  ghost predicate LastWithTitle(entries: seq<Entry>, i: int)
  {
    && 0 <= i < |entries|
    && entries[i].Widget?
    && forall j :: i < j < |entries| && entries[j].Widget? ==> entries[j].control.title != entries[i].control.title
  }

  /** Inserts every entry under its title, left to right; an entry that is a list has no
      `.title`, which aborts the registration. */
  function Register(registry: map<string, Slot>, entries: seq<Entry>): (r: Result<map<string, Slot>>)
    ensures r.Ok? <==> forall i :: 0 <= i < |entries| ==> entries[i].Widget?
    ensures r.Err? ==> r.error == NoTitle
    ensures r.Ok? ==> r.value.Keys == registry.Keys + Titles(entries)
    ensures r.Ok? ==> forall k :: k in registry && k !in Titles(entries) ==> r.value[k] == registry[k]
    ensures r.Ok? ==> forall i :: LastWithTitle(entries, i) ==> r.value[entries[i].control.title] == Registered(entries[i].control)
    decreases |entries|
  {
    if |entries| == 0 then Ok(registry)
    else match entries[0]
      case Nested(_) => Err(NoTitle)
      case Widget(c) =>
        var r := Register(registry[c.title := Registered(c)], entries[1..]);
        RegisterStep(registry, entries, r);
        r
  }

  /** Registering the first control and then the rest is registering all of them. */
  lemma RegisterStep(registry: map<string, Slot>, entries: seq<Entry>, r: Result<map<string, Slot>>)
    requires |entries| >= 1 && entries[0].Widget?
    requires var c := entries[0].control; var rest := entries[1..]; var reg := registry[c.title := Registered(c)];
      && (r.Ok? <==> forall i :: 0 <= i < |rest| ==> rest[i].Widget?)
      && (r.Ok? ==> r.value.Keys == reg.Keys + Titles(rest))
      && (r.Ok? ==> forall k :: k in reg && k !in Titles(rest) ==> r.value[k] == reg[k])
      && (r.Ok? ==> forall i :: LastWithTitle(rest, i) ==> r.value[rest[i].control.title] == Registered(rest[i].control))
    ensures r.Ok? <==> forall i :: 0 <= i < |entries| ==> entries[i].Widget?
    ensures r.Ok? ==> r.value.Keys == registry.Keys + Titles(entries)
    ensures r.Ok? ==> forall k :: k in registry && k !in Titles(entries) ==> r.value[k] == registry[k]
    ensures r.Ok? ==> forall i :: LastWithTitle(entries, i) ==> r.value[entries[i].control.title] == Registered(entries[i].control)
  {
    var c := entries[0].control;
    var rest := entries[1..];
    assert Titles(entries) == {c.title} + Titles(rest) by {
      forall t | t in Titles(entries) ensures t in {c.title} + Titles(rest) {
        var i :| 0 <= i < |entries| && entries[i].Widget? && entries[i].control.title == t;
        if i > 0 {
          assert rest[i - 1] == entries[i];
        }
      }
      forall t | t in Titles(rest) ensures t in Titles(entries) {
        var i :| 0 <= i < |rest| && rest[i].Widget? && rest[i].control.title == t;
        assert entries[i + 1] == rest[i];
      }
    }
    if forall i :: 0 <= i < |rest| ==> rest[i].Widget? {
      forall i | 0 <= i < |entries| ensures entries[i].Widget? {
        if i > 0 {
          assert entries[i] == rest[i - 1];
        }
      }
    } else {
      var i :| 0 <= i < |rest| && !rest[i].Widget?;
      assert entries[i + 1] == rest[i];
    }
    if r.Ok? {
      forall i | LastWithTitle(entries, i)
        ensures r.value[entries[i].control.title] == Registered(entries[i].control)
      {
        if i == 0 {
          assert c.title !in Titles(rest);
        } else {
          assert LastWithTitle(rest, i - 1) by {
            forall j | i - 1 < j < |rest| && rest[j].Widget?
              ensures rest[j].control.title != rest[i - 1].control.title
            {
              assert entries[j + 1] == rest[j];
            }
          }
        }
      }
    }
  }

  /** The controls of entries that are all controls. */
  function Controls(entries: seq<Entry>): (cs: seq<Control>)
    requires forall i :: 0 <= i < |entries| ==> entries[i].Widget?
    ensures |cs| == |entries|
    ensures forall i :: 0 <= i < |entries| ==> entries[i] == Widget(cs[i])
  {
    seq(|entries|, i requires 0 <= i < |entries| => entries[i].control)
  }

  /** Every control gets the same callback, once for changes of "value" and once for its events. */
  function Attach<CB>(controls: seq<Control>, callback: CB): seq<Wired<CB>>
  {
    seq(|controls|, i requires 0 <= i < |controls| =>
      Wired(controls[i], [Handler("value", callback)], [Handler("value", callback)]))
  }

  /** The parsed widget list; a parse failure is logged and replaced by the empty list. */
  function ParsedOrEmpty(widgetString: string, parse: WidgetParser): seq<Item>
  {
    match parse(widgetString)
    case Some(items) => items
    case None => []
  }

  /** `initWidgets`: build the controls, register them by title in the seeded registry, generate
      the one callback from that registry and attach it to every control. */
  function InitWidgets<CB>(widgetString: string, parse: WidgetParser, toFloat: FloatParser,
                           makeCallback: map<string, Slot> -> CB): (r: Result<Setup<CB>>)
    ensures parse(widgetString).None? ==> r == Ok(Setup(Seed, makeCallback(Seed), []))
    ensures var created := CreateWidgets(ParsedOrEmpty(widgetString, parse), toFloat);
      && (created.Err? ==> r == Err(created.error))
      && (created.Ok? ==> (r.Ok? <==> forall i :: 0 <= i < |created.value| ==> created.value[i].Widget?))
      && (created.Ok? && r.Err? ==> r.error == NoTitle)
      && (r.Ok? ==> created.Ok? && |r.value.column| == |created.value|
                    && forall i :: 0 <= i < |created.value| ==> created.value[i] == Widget(r.value.column[i].control))
    ensures r.Ok? ==> r.value.callback == makeCallback(r.value.registry)
    ensures r.Ok? ==> forall w :: w in r.value.column ==>
      w.onChange == [Handler("value", r.value.callback)] && w.onEvent == [Handler("value", r.value.callback)]
    ensures r.Ok? ==> r.value.registry.Keys == Seed.Keys + set w | w in r.value.column :: w.control.title
  {
    match CreateWidgets(ParsedOrEmpty(widgetString, parse), toFloat)
    case Err(e) => Err(e)
    case Ok(entries) =>
      match Register(Seed, entries)
      case Err(e) => Err(e)
      case Ok(registry) =>
        var callback := makeCallback(registry);
        var column := Attach(Controls(entries), callback);
        ColumnTitles(entries, callback);
        Ok(Setup(registry, callback, column))
  }

  /** The titles in the column are the titles of the registered entries. */
  lemma ColumnTitles<CB>(entries: seq<Entry>, callback: CB)
    requires forall i :: 0 <= i < |entries| ==> entries[i].Widget?
    ensures Titles(entries) == set w | w in Attach(Controls(entries), callback) :: w.control.title
  {
    var column := Attach(Controls(entries), callback);
    forall t | t in Titles(entries) ensures t in set w | w in column :: w.control.title {
      var i :| 0 <= i < |entries| && entries[i].Widget? && entries[i].control.title == t;
      assert column[i] in column;
    }
  }
}
