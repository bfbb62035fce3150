/** What `initWidgets` promises about the registry, the recovery from parse failures, and what
    happens when an entry took the factory's backward-compatibility path. */
module SetupProperties {
  import opened Outcomes
  import opened WidgetFactory
  import opened WidgetSetup
  import FactoryProperties

  /** The setup's registry and column are the registration and wiring of the created entries. */
  lemma SetupParts<CB>(widgetString: string, parse: WidgetParser, toFloat: FloatParser,
                       makeCallback: map<string, Slot> -> CB)
    requires InitWidgets(widgetString, parse, toFloat, makeCallback).Ok?
    ensures var created := CreateWidgets(ParsedOrEmpty(widgetString, parse), toFloat);
      && created.Ok?
      && (forall i :: 0 <= i < |created.value| ==> created.value[i].Widget?)
      && var s := InitWidgets(widgetString, parse, toFloat, makeCallback).value;
      && Register(Seed, created.value) == Ok(s.registry)
      && s.column == Attach(Controls(created.value), s.callback)
  {
  }

  /** A control whose title no later control repeats is the one registered under that title. */
  lemma RegistryLastWriterWins<CB>(widgetString: string, parse: WidgetParser, toFloat: FloatParser,
                                   makeCallback: map<string, Slot> -> CB)
    requires InitWidgets(widgetString, parse, toFloat, makeCallback).Ok?
    ensures var s := InitWidgets(widgetString, parse, toFloat, makeCallback).value;
      forall i :: 0 <= i < |s.column| && (forall j :: i < j < |s.column| ==> s.column[j].control.title != s.column[i].control.title)
        ==> s.registry[s.column[i].control.title] == Registered(s.column[i].control)
  {
    SetupParts(widgetString, parse, toFloat, makeCallback);
    var s := InitWidgets(widgetString, parse, toFloat, makeCallback).value;
    var entries := CreateWidgets(ParsedOrEmpty(widgetString, parse), toFloat).value;
    var column := s.column;
    forall i | 0 <= i < |column| && (forall j :: i < j < |column| ==> column[j].control.title != column[i].control.title)
      ensures s.registry[column[i].control.title] == Registered(column[i].control)
    {
      forall j | i < j < |entries| && entries[j].Widget?
        ensures entries[j].control.title != entries[i].control.title
      {
        assert entries[j].control == column[j].control;
      }
      assert LastWithTitle(entries, i);
      assert entries[i].control == column[i].control;
    }
  }

  /** A control titled like a data source replaces it when no later control has that title. */
  lemma DataSourceReplaced<CB>(widgetString: string, parse: WidgetParser, toFloat: FloatParser,
                               makeCallback: map<string, Slot> -> CB, key: string, i: int)
    requires InitWidgets(widgetString, parse, toFloat, makeCallback).Ok?
    requires var s := InitWidgets(widgetString, parse, toFloat, makeCallback).value;
      && key in Seed && 0 <= i < |s.column| && s.column[i].control.title == key
      && (forall j :: i < j < |s.column| ==> s.column[j].control.title != key)
    ensures InitWidgets(widgetString, parse, toFloat, makeCallback).value.registry[key]
         == Registered(InitWidgets(widgetString, parse, toFloat, makeCallback).value.column[i].control)
  {
    RegistryLastWriterWins(widgetString, parse, toFloat, makeCallback);
  }

  /** Registration leaves a seeded key alone when no control carries it as title. */
  lemma SeedKept(entries: seq<Entry>, registry: map<string, Slot>, key: string)
    requires Register(Seed, entries) == Ok(registry) && key in Seed
    requires forall i :: 0 <= i < |entries| && entries[i].Widget? ==> entries[i].control.title != key
    ensures registry[key] == Seed[key]
  {
    assert key !in Titles(entries);
  }

  /** One data source stays registered when no control in the column took its title. */
  lemma DataSourceKept<CB>(widgetString: string, parse: WidgetParser, toFloat: FloatParser,
                           makeCallback: map<string, Slot> -> CB, key: string)
    requires InitWidgets(widgetString, parse, toFloat, makeCallback).Ok? && key in Seed
    requires forall w :: w in InitWidgets(widgetString, parse, toFloat, makeCallback).value.column ==> w.control.title != key
    ensures InitWidgets(widgetString, parse, toFloat, makeCallback).value.registry[key] == Seed[key]
  {
    SetupParts(widgetString, parse, toFloat, makeCallback);
    var s := InitWidgets(widgetString, parse, toFloat, makeCallback).value;
    var entries := CreateWidgets(ParsedOrEmpty(widgetString, parse), toFloat).value;
    forall i | 0 <= i < |entries| && entries[i].Widget?
      ensures entries[i].control.title != key
    {
      assert s.column[i] in s.column;
      assert entries[i].control == s.column[i].control;
    }
    SeedKept(entries, s.registry, key);
  }

  /** The two data sources stay registered unless a control took their title. */
  lemma DataSourcesKept<CB>(widgetString: string, parse: WidgetParser, toFloat: FloatParser,
                            makeCallback: map<string, Slot> -> CB)
    requires InitWidgets(widgetString, parse, toFloat, makeCallback).Ok?
    ensures var s := InitWidgets(widgetString, parse, toFloat, makeCallback).value;
      && ((forall w :: w in s.column ==> w.control.title != "cdsOrig") ==> s.registry["cdsOrig"] == OriginalSource)
      && ((forall w :: w in s.column ==> w.control.title != "cdsSel") ==> s.registry["cdsSel"] == SelectedSource)
  {
    var s := InitWidgets(widgetString, parse, toFloat, makeCallback).value;
    if forall w :: w in s.column ==> w.control.title != "cdsOrig" {
      DataSourceKept(widgetString, parse, toFloat, makeCallback, "cdsOrig");
    }
    if forall w :: w in s.column ==> w.control.title != "cdsSel" {
      DataSourceKept(widgetString, parse, toFloat, makeCallback, "cdsSel");
    }
  }

  /** Once every pair was built, a single pair that took the backward-compatibility path makes
      the registration fail: the empty list it produced has no title. */
  lemma FallbackBreaksSetup<CB>(widgetString: string, parse: WidgetParser, toFloat: FloatParser,
                                makeCallback: map<string, Slot> -> CB, i: int)
    requires var xs := ParsedOrEmpty(widgetString, parse);
      && 0 <= i < |xs| / 2
      && (forall j :: 0 <= j < |xs| / 2 ==> PairEntry(xs, j, toFloat).Ok?)
      && xs[2 * i].Word? && !IsKnownTag(Tag(xs[2 * i].text))
    ensures InitWidgets(widgetString, parse, toFloat, makeCallback) == Err(NoTitle)
  {
    var xs := ParsedOrEmpty(widgetString, parse);
    var created := CreateWidgets(xs, toFloat);
    assert created.value[i] == PairEntry(xs, i, toFloat).value;
    assert created.value[i].Nested?;
  }

  /** A widget string holding a checkbox, like the widget strings in test_bokehDraw.py, cannot be set up. */
  lemma CheckboxStringFails<CB>(widgetString: string, parse: WidgetParser, toFloat: FloatParser,
                                makeCallback: map<string, Slot> -> CB, name: string, params: Item)
    requires parse(widgetString) == Some([Word("checkbox." + name), params])
    ensures InitWidgets(widgetString, parse, toFloat, makeCallback) == Err(NoTitle)
  {
    FactoryProperties.CheckboxTakesFallback(name, params, toFloat);
  }
}
