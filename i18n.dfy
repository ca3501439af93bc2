/** The translation service (src/services/i18n/index.js): the current
    language, its own listener set, the dot-path lookup `t` and the
    placeholder substitution `tFormat`. */
module I18n {

  import opened Values
  import opened Strings
  import opened Listeners
  import StoreState
  import Store

  /** A translation table: a string, or an object of named sub-tables. */
  datatype Node = Leaf(text: string) | Branch(children: map<string, Node>)

  /** JavaScript truthiness of a table entry: every object is truthy, a string when non-empty. */
  predicate TruthyNode(n: Node) {
    n.Branch? || n.text != ""
  }

  /** One step of the walk, `value && value[k]`: the entry under `k` when
      `value` is an object holding a truthy entry there. */
  function Child(n: Node, k: string): Option<Node> {
    if n.Branch? && k in n.children && TruthyNode(n.children[k]) then Some(n.children[k]) else None
  }

  /** The node reached from `n` along the path `segs`, or `None` as soon as a
      segment is missing or falsy. */
  function Walk(n: Node, segs: seq<string>): Option<Node>
    decreases |segs|
  {
    if segs == [] then Some(n)
    else
      match Child(n, segs[0])
      case None => None
      case Some(c) => Walk(c, segs[1..])
  }

  /** Walking a concatenated path is walking its first part, then the second
      part from the node reached. */
  lemma {:induction false} WalkAppend(n: Node, a: seq<string>, b: seq<string>)
    ensures Walk(n, a + b) == match Walk(n, a) case None => None case Some(m) => Walk(m, b)
    decreases |a|
  {
    if a == [] {
      assert a + b == b;
    } else {
      assert (a + b)[0] == a[0] && (a + b)[1..] == a[1..] + b;
      match Child(n, a[0])
      case None =>
      case Some(c) => WalkAppend(c, a[1..], b);
    }
  }

  /** A walk fails exactly when some segment names nothing truthy under the
      node reached by the segments before it. */
  lemma {:induction false} WalkFails(n: Node, segs: seq<string>)
    ensures Walk(n, segs).None? <==>
      exists i :: 0 <= i < |segs| && Walk(n, segs[..i]).Some? && Child(Walk(n, segs[..i]).value, segs[i]).None?
    decreases |segs|
  {
    if segs != [] {
      assert segs[..0] == [];
      match Child(n, segs[0])
      case None =>
      case Some(c) =>
        var tail := segs[1..];
        WalkFails(c, tail);
        forall i | 1 <= i <= |segs|
          ensures Walk(n, segs[..i]) == Walk(c, tail[..i - 1])
        {
          assert segs[..i][0] == segs[0] && segs[..i][1..] == tail[..i - 1];
        }
        if Walk(n, segs).None? {
          var j :| 0 <= j < |tail| && Walk(c, tail[..j]).Some? && Child(Walk(c, tail[..j]).value, tail[j]).None?;
          assert Walk(n, segs[..j + 1]) == Walk(c, tail[..j]);
        } else {
          forall i | 0 <= i < |segs| && Walk(n, segs[..i]).Some?
            ensures Child(Walk(n, segs[..i]).value, segs[i]).Some?
          {
            if i > 0 {
              assert Walk(n, segs[..i]) == Walk(c, tail[..i - 1]);
              assert segs[i] == tail[i - 1];
            }
          }
        }
    }
  }

  /** `t(key)` with the tables `translations` and current language `lang`:
      the node the dotted key leads to, or the key itself. */
  function Translated(translations: map<string, Node>, lang: string, key: string): Node {
    if lang !in translations then Leaf(key)
    else
      match Walk(translations[lang], Split(key, '.'))
      case None => Leaf(key)
      case Some(m) => m
  }

  /** A dotted key is looked up in two stages: the part before a `.` leads to
      a sub-table, and the part after it is looked up in that sub-table, the
      whole key standing in for a miss. */
  lemma TranslatedDotted(translations: map<string, Node>, lang: string, p: string, q: string)
    requires lang in translations
    ensures var key := p + "." + q;
      Translated(translations, lang, key) ==
        match Walk(translations[lang], Split(p, '.'))
        case None => Leaf(key)
        case Some(m) => (match Walk(m, Split(q, '.')) case None => Leaf(key) case Some(r) => r)
  {
    SplitAtSeparator(p, q, '.');
    WalkAppend(translations[lang], Split(p, '.'), Split(q, '.'));
  }

  /** A miss at any segment, or a language without a table, gives back the key. */
  lemma TranslatedMiss(translations: map<string, Node>, lang: string, key: string, i: nat)
    requires lang in translations ==>
      var segs := Split(key, '.');
      && i < |segs|
      && Walk(translations[lang], segs[..i]).Some?
      && Child(Walk(translations[lang], segs[..i]).value, segs[i]).None?
    ensures Translated(translations, lang, key) == Leaf(key)
  {
    if lang in translations {
      WalkFails(translations[lang], Split(key, '.'));
    }
  }

  /** `{name}`, the placeholder `tFormat` looks for. */
  function Placeholder(name: string): string {
    "{" + name + "}"
  }

  /** The text after the first `i` variables have been substituted, in entry order. */
  function Substituted(text: string, variables: seq<(string, string)>): string
    decreases |variables|
  {
    if variables == [] then text
    else
      var (name, value) := variables[|variables| - 1];
      ReplaceFirst(Substituted(text, variables[..|variables| - 1]), Placeholder(name), value)
  }

  /** The first entry is substituted first: into the untouched text, at the
      first occurrence of its placeholder only. */
  lemma {:induction false} SubstitutedFirst(text: string, variables: seq<(string, string)>)
    requires variables != []
    ensures Substituted(text, variables) ==
      Substituted(ReplaceFirst(text, Placeholder(variables[0].0), variables[0].1), variables[1..])
    decreases |variables|
  {
    var first := ReplaceFirst(text, Placeholder(variables[0].0), variables[0].1);
    if |variables| == 1 {
      assert variables[..0] == [] && variables[1..] == [];
    } else {
      var init := variables[..|variables| - 1];
      assert init[0] == variables[0] && init[1..] == variables[1..][..|variables[1..]| - 1];
      SubstitutedFirst(text, init);
      assert variables[1..][|variables[1..]| - 1] == variables[|variables| - 1];
    }
  }

  /** What `tFormat` yields: `None` stands for the `TypeError` thrown when a
      sub-table (an object, which has no `replace`) meets a non-empty set of
      variables. */
  function Formatted(n: Node, variables: seq<(string, string)>): (r: Option<Node>)
    ensures variables == [] ==> r == Some(n)
    ensures r.None? <==> variables != [] && n.Branch?
    ensures variables != [] && n.Leaf? ==> r == Some(Leaf(Substituted(n.text, variables)))
  {
    if variables == [] then Some(n)
    else if n.Branch? then None
    else Some(Leaf(Substituted(n.text, variables)))
  }

  /** Only the first occurrence of a placeholder is replaced; later ones stay. */
  lemma FirstOccurrenceOnly()
    ensures Substituted("{n} and {n}", [("n", "Ada")]) == "Ada and {n}"
  {
    assert Placeholder("n") == "{n}";
    assert StartsWith("{n} and {n}", "{n}");
    assert IndexOf("{n} and {n}", "{n}") == Some(0);
    assert [("n", "Ada")][..0] == [];
  }

  /** A delivery of the new language to one subscriber. */
  datatype Delivery = Delivery(listener: ListenerId, language: string)

  /** One `notify`: every subscriber, in insertion order, receives `lang`. */
  function Announcements(ls: seq<ListenerId>, lang: string): (r: seq<Delivery>)
    ensures |r| == |ls|
    ensures forall i :: 0 <= i < |ls| ==> r[i] == Delivery(ls[i], lang)
  {
    seq(|ls|, i requires 0 <= i < |ls| => Delivery(ls[i], lang))
  }

  class I18nService {
    const translations: map<string, Node>
    var currentLanguage: string
    var listeners: seq<ListenerId>
    /** Everything `notify` has delivered so far. */
    var deliveries: seq<Delivery>

    ghost predicate Valid()
      reads this
    {
      NoDuplicates(listeners)
    }

    /** `this.translations[lang]` is truthy: a table exists for `lang`. */
    predicate Supported(lang: string) {
      lang in translations && TruthyNode(translations[lang])
    }

    /** Starts in English, adopts the store's language when it is non-empty
        (supported or not), and subscribes `callback` to the store; the store
        invokes that callback as `OnStoreState`. */
    constructor (translations: map<string, Node>, store: Store.EmployeeStore, callback: ListenerId)
      requires store.Valid()
      modifies store`listeners
      ensures this.translations == translations
      ensures currentLanguage == if store.state.language != "" then store.state.language else "en"
      ensures listeners == [] && deliveries == [] && Valid()
      ensures store.Valid() && store.listeners == Added(old(store.listeners), callback)
    {
      this.translations := translations;
      currentLanguage := "en";
      listeners := [];
      deliveries := [];
      new;
      var initialState := store.GetState();
      if initialState.language != "" {
        currentLanguage := initialState.language;
      }
      var _ := store.Subscribe(callback);
    }

    /** `subscribe`: add the listener at most once. */
    method Subscribe(listener: ListenerId) returns (handle: ListenerId)
      requires Valid()
      modifies this`listeners
      ensures Valid()
      ensures listeners == Added(old(listeners), listener) && handle == listener
    {
      listeners := Added(listeners, listener);
      handle := listener;
    }

    /** The closure `subscribe` returns: removes the listener; harmless twice. */
    method Unsubscribe(handle: ListenerId) returns (removed: bool)
      requires Valid()
      modifies this`listeners
      ensures Valid()
      ensures listeners == Removed(old(listeners), handle)
      ensures removed == (handle in old(listeners))
    {
      removed := handle in listeners;
      listeners := Removed(listeners, handle);
    }

    /** `notify`: hand the current language to every listener in insertion order. */
    method Notify()
      modifies this`deliveries
      ensures deliveries == old(deliveries) + Announcements(listeners, currentLanguage)
    {
      var i := 0;
      while i < |listeners|
        invariant 0 <= i <= |listeners|
        invariant deliveries == old(deliveries) + Announcements(listeners[..i], currentLanguage)
      {
        deliveries := deliveries + [Delivery(listeners[i], currentLanguage)];
        i := i + 1;
      }
      assert listeners[..i] == listeners;
    }

    /** `setLanguage`: switch and notify only when a table exists for `lang`. */
    method SetLanguage(lang: string)
      modifies this`currentLanguage, this`deliveries
      ensures Supported(lang) ==>
        currentLanguage == lang && deliveries == old(deliveries) + Announcements(listeners, lang)
      ensures !Supported(lang) ==> currentLanguage == old(currentLanguage) && deliveries == old(deliveries)
    {
      if lang in translations && TruthyNode(translations[lang]) {
        currentLanguage := lang;
        Notify();
      }
    }

    /** The store subscription: follow the store's language when it differs.
        Afterwards the two agree exactly when the store's language is
        supported or was already current. */
    method OnStoreState(state: StoreState.State)
      modifies this`currentLanguage, this`deliveries
      ensures currentLanguage == state.language <==> Supported(state.language) || old(currentLanguage) == state.language
      ensures currentLanguage == old(currentLanguage) || currentLanguage == state.language
      ensures deliveries == if state.language != old(currentLanguage) && Supported(state.language)
        then old(deliveries) + Announcements(listeners, state.language) else old(deliveries)
    {
      if state.language != currentLanguage {
        SetLanguage(state.language);
      }
    }

    /** `t`: walk the current language's table segment by segment. */
    method T(key: string) returns (r: Node)
      ensures r == Translated(translations, currentLanguage, key)
    {
      var keys := Split(key, '.');
      if currentLanguage !in translations {
        return Leaf(key);
      }
      var value := translations[currentLanguage];
      var i := 0;
      while i < |keys|
        invariant 0 <= i <= |keys|
        invariant Walk(translations[currentLanguage], keys) == Walk(value, keys[i..])
      {
        assert keys[i..][0] == keys[i] && keys[i..][1..] == keys[i + 1..];
        if value.Branch? && keys[i] in value.children && TruthyNode(value.children[keys[i]]) {
          value := value.children[keys[i]];
        } else {
          return Leaf(key);
        }
        i := i + 1;
      }
      assert keys[i..] == [];
      r := value;
    }

    /** `tFormat`: substitute each variable's first placeholder, in entry order. */
    method TFormat(key: string, variables: seq<(string, string)>) returns (r: Option<Node>)
      ensures r == Formatted(Translated(translations, currentLanguage, key), variables)
    {
      var t := T(key);
      if variables == [] {
        return Some(t);
      }
      if t.Branch? {
        return None;
      }
      var text := t.text;
      var i := 0;
      while i < |variables|
        invariant 0 <= i <= |variables|
        invariant text == Substituted(t.text, variables[..i])
      {
        var (name, value) := variables[i];
        assert variables[..i + 1][..i] == variables[..i];
        text := ReplaceFirst(text, Placeholder(name), value);
        i := i + 1;
      }
      assert variables[..i] == variables;
      r := Some(Leaf(text));
    }
  }

  /** A fragment of the application's English table. */
  function SampleTable(): map<string, Node> {
    map["en" := Branch(map["form" := Branch(map["save" := Leaf("Save"), "select" := Leaf("")])])]
  }

  /** A full path yields its string. */
  lemma SampleFullPath()
    ensures Translated(SampleTable(), "en", "form.save") == Leaf("Save")
  {
    assert "form.save" == "form" + "." + "save";
    assert '.' !in "form" && '.' !in "save";
    TranslatedDotted(SampleTable(), "en", "form", "save");
    var form := SampleTable()["en"].children["form"];
    assert Walk(SampleTable()["en"], ["form"]) == Some(form);
    assert "save" in form.children && form.children["save"] == Leaf("Save");
    assert Child(form, "save") == Some(Leaf("Save"));
    assert Walk(form, ["save"]) == Some(Leaf("Save"));
  }

  /** A prefix of a path yields the whole sub-table. */
  lemma SamplePrefix()
    ensures Translated(SampleTable(), "en", "form") == SampleTable()["en"].children["form"]
  {
    assert '.' !in "form";
  }

  /** An empty entry, like a missing one, yields the key. */
  lemma SampleEmptyEntry()
    ensures Translated(SampleTable(), "en", "form.select") == Leaf("form.select")
  {
    assert "form.select" == "form" + "." + "select";
    assert '.' !in "form" && '.' !in "select";
    TranslatedDotted(SampleTable(), "en", "form", "select");
  }

  /** A language without a table yields the key. */
  lemma SampleUnknownLanguage()
    ensures Translated(SampleTable(), "de", "form.save") == Leaf("form.save")
  {
  }
}
