/**
 * The translation context: the current language, restored from and saved to
 * the store under `language`, and `t(key, params)`, which looks a dotted key
 * up in the language's bundle and fills in `{{name}}` placeholders. The
 * bundles' contents are parameters.
 */
module I18n {
  import opened Wrappers
  import opened Strings
  import opened Storage

  // ---------------------------------------------------------------------
  // Bundles and dotted lookup
  // ---------------------------------------------------------------------

  /** A JSON value as far as the lookup cares: text, an object, or anything else. */
  datatype Json = JStr(text: string) | JObj(fields: map<string, Json>) | JOther

  /** `acc?.[part]`: a field of an object; anything else has no such field. */
  function Field(acc: Option<Json>, part: string): (r: Option<Json>)
    ensures r.Some? <==> acc.Some? && acc.value.JObj? && part in acc.value.fields
    ensures r.Some? ==> r.value == acc.value.fields[part]
  {
    if acc.Some? && acc.value.JObj? && part in acc.value.fields then Some(acc.value.fields[part]) else None
  }

  /**
   * `parts.reduce((acc, part) => acc?.[part], start)`. The empty path is the
   * start itself; any other path finds something only inside an object that
   * has its first segment, so once a segment is missing nothing is found.
   */
  function Lookup(start: Option<Json>, parts: seq<string>): (r: Option<Json>)
    ensures parts == [] ==> r == start
    ensures parts != [] && r.Some? ==> start.Some? && start.value.JObj? && parts[0] in start.value.fields
    decreases |parts|
  {
    if parts == [] then start else Lookup(Field(start, parts[0]), parts[1..])
  }

  /** Looking a path up is looking its first part up, then the rest from there. */
  lemma {:induction false} LookupAppend(start: Option<Json>, a: seq<string>, b: seq<string>)
    ensures Lookup(start, a + b) == Lookup(Lookup(start, a), b)
    decreases |a|
  {
    if a != [] {
      assert (a + b)[0] == a[0] && (a + b)[1..] == a[1..] + b;
      LookupAppend(Field(start, a[0]), a[1..], b);
    } else {
      assert a + b == b;
    }
  }

  /**
   * `getNestedValue(obj, path)`: the text the dotted path leads to when it
   * leads to a text, and the path itself otherwise.
   */
  function GetNestedValue(obj: map<string, Json>, path: string): (r: string)
    ensures var found := Lookup(Some(JObj(obj)), Split(path, '.'));
      && (found.Some? && found.value.JStr? ==> r == found.value.text)
      && (!(found.Some? && found.value.JStr?) ==> r == path)
  {
    match Lookup(Some(JObj(obj)), Split(path, '.'))
    case Some(JStr(text)) => text
    case _ => path
  }

  /** A path written as dot-free segments finds the text those segments lead to. */
  lemma NestedValueFound(obj: map<string, Json>, parts: seq<string>, text: string)
    requires |parts| >= 1 && forall i :: 0 <= i < |parts| ==> '.' !in parts[i]
    requires Lookup(Some(JObj(obj)), parts) == Some(JStr(text))
    ensures GetNestedValue(obj, Join(parts, ".")) == text
  {
    SplitJoin(parts, '.');
  }

  /** A path that leads nowhere, or to something other than text, comes back unchanged. */
  lemma NestedValueFallback(obj: map<string, Json>, parts: seq<string>)
    requires |parts| >= 1 && forall i :: 0 <= i < |parts| ==> '.' !in parts[i]
    requires !Lookup(Some(JObj(obj)), parts).Some? || !Lookup(Some(JObj(obj)), parts).value.JStr?
    ensures GetNestedValue(obj, Join(parts, ".")) == Join(parts, ".")
  {
    SplitJoin(parts, '.');
  }

  /** A key whose first segment the bundle lacks is its own translation. */
  lemma UnknownKey(obj: map<string, Json>, key: string)
    requires Split(key, '.')[0] !in obj
    ensures GetNestedValue(obj, key) == key
  {
  }

  // ---------------------------------------------------------------------
  // Placeholders
  // ---------------------------------------------------------------------

  /** The text `{{name}}` that `t` replaces for the parameter `name`. */
  function Placeholder(name: string): (p: string)
    ensures |p| == |name| + 4 && p != []
  {
    "{{" + name + "}}"
  }

  /**
   * The parameters applied in entry order, each replacing every occurrence of
   * its placeholder in the text the previous ones left.
   */
  function Substitute(value: string, params: seq<(string, string)>): (r: string)
    ensures NoPlaceholderOf(value, params) ==> r == value
    decreases |params|
  {
    if params == [] then value
    else
      var next := ReplaceAll(value, Placeholder(params[0].0), params[0].1);
      var r := Substitute(next, params[1..]);
      assert NoPlaceholderOf(value, params) ==> r == value by {
        if NoPlaceholderOf(value, params) {
          ReplaceAllAbsent(value, Placeholder(params[0].0), params[0].1);
          assert forall j :: 0 <= j < |params| - 1 ==> params[1..][j] == params[j + 1];
        }
      }
      r
  }

  /** The text holds the placeholder of none of the names supplied. */
  ghost predicate NoPlaceholderOf(value: string, params: seq<(string, string)>) {
    forall i :: 0 <= i < |params| ==> !Contains(value, Placeholder(params[i].0))
  }

  /**
   * A value is safe for a name when it is non-empty, holds no brace and does
   * not occur inside the name: replacing with it can then never rebuild the
   * name's placeholder.
   */
  ghost predicate SafeValue(v: string, name: string) {
    v != [] && '{' !in v && '}' !in v && !Contains(name, v)
  }

  /** Every value is safe with respect to every name supplied. */
  ghost predicate SafeParams(params: seq<(string, string)>) {
    forall i, j :: 0 <= i < |params| && 0 <= j < |params| ==> SafeValue(params[j].1, params[i].0)
  }

  /** Text that starts with a safe value does not start with any part of `{{name}}` that reaches its end. */
  lemma SafeValueStartsNoSuffix(r: string, x: string, name: string, m: nat)
    requires SafeValue(r, name) && m < |Placeholder(name)|
    ensures !StartsWith(r + x, Placeholder(name)[m..])
  {
    var q := Placeholder(name);
    var w := q[m..];
    var t := r + x;
    if |w| <= |r| {
      assert t[|w| - 1] != w[|w| - 1];
    } else if m < 2 {
      assert t[0] != w[0];
    } else if m + |r| > |q| - 2 {
      assert t[|q| - 2 - m] != w[|q| - 2 - m];
    } else {
      assert !OccursAt(name, r, m - 2);
      assert w[..|r|] == name[m - 2..m - 2 + |r|] != r;
      assert t[..|r|] == r;
    }
  }

  /**
   * If the replaced text starts with a suffix of `{{name}}`, so did the
   * original: a safe replacement never completes a placeholder that was not
   * already there.
   */
  lemma {:induction false} ReplacePrefix(u: string, p: string, r: string, name: string, m: nat)
    requires p != [] && SafeValue(r, name) && m < |Placeholder(name)|
    requires StartsWith(ReplaceAll(u, p, r), Placeholder(name)[m..])
    ensures StartsWith(u, Placeholder(name)[m..])
    decreases |u|
  {
    var q := Placeholder(name);
    var w := q[m..];
    if |u| >= |p| {
      if u[..|p|] == p {
        SafeValueStartsNoSuffix(r, ReplaceAll(u[|p|..], p, r), name, m);
      } else if m + 1 < |q| {
        var t := [u[0]] + ReplaceAll(u[1..], p, r);
        assert StartsWith(ReplaceAll(u[1..], p, r), q[m + 1..]) by {
          assert t[1..][..|w| - 1] == t[..|w|][1..];
          assert q[m + 1..] == w[1..];
        }
        ReplacePrefix(u[1..], p, r, name, m + 1);
        assert u[..|w|] == [u[0]] + u[1..][..|w| - 1];
        assert w == [w[0]] + q[m + 1..];
      }
    }
  }

  /** Putting a safe value in front of a text creates no placeholder. */
  lemma AbsentAfterValue(r: string, t: string, name: string)
    requires SafeValue(r, name) && !Contains(t, Placeholder(name))
    ensures !Contains(r + t, Placeholder(name))
  {
    var q := Placeholder(name);
    var rt := r + t;
    forall i | 0 <= i && i + |q| <= |rt| ensures !OccursAt(rt, q, i) {
      if i < |r| {
        assert rt[i..i + |q|][0] == r[i] != q[0];
      } else {
        assert rt[i..i + |q|] == t[i - |r|..i - |r| + |q|];
        assert !OccursAt(t, q, i - |r|);
      }
    }
  }

  /**
   * Keeping the first character of `s` in front of the replaced rest creates
   * no placeholder, unless `s` itself starts with one.
   */
  lemma AbsentAfterKept(s: string, p: string, r: string, name: string)
    requires p != [] && s != [] && SafeValue(r, name)
    requires !StartsWith(s, Placeholder(name))
    requires !Contains(ReplaceAll(s[1..], p, r), Placeholder(name))
    ensures !Contains([s[0]] + ReplaceAll(s[1..], p, r), Placeholder(name))
  {
    var q := Placeholder(name);
    var t' := ReplaceAll(s[1..], p, r);
    var t := [s[0]] + t';
    forall i | 0 <= i && i + |q| <= |t| ensures !OccursAt(t, q, i) {
      if i == 0 {
        if t[..|q|] == q {
          assert t'[..|q| - 1] == t[1..|q|] == q[1..];
          ReplacePrefix(s[1..], p, r, name, 1);
        }
      } else {
        assert t[i..i + |q|] == t'[i - 1..i - 1 + |q|];
        assert !OccursAt(t', q, i - 1);
      }
    }
  }

  /**
   * After one safe global replace, `{{name}}` does not occur: the replaced
   * placeholder is gone, and one that was absent stays absent.
   */
  lemma {:induction false} ReplaceLeavesNone(s: string, p: string, r: string, name: string)
    requires p != [] && SafeValue(r, name)
    requires p == Placeholder(name) || !Contains(s, Placeholder(name))
    ensures !Contains(ReplaceAll(s, p, r), Placeholder(name))
    decreases |s|
  {
    var q := Placeholder(name);
    if |s| < |p| {
      assert ReplaceAll(s, p, r) == s;
      if p == q {
        assert forall i :: !OccursAt(s, q, i);
      }
    } else if s[..|p|] == p {
      if p != q {
        AbsentFromSuffix(s, q, |p|);
      }
      ReplaceLeavesNone(s[|p|..], p, r, name);
      AbsentAfterValue(r, ReplaceAll(s[|p|..], p, r), name);
    } else {
      if p != q {
        AbsentFromSuffix(s, q, 1);
        assert !OccursAt(s, q, 0);
      }
      ReplaceLeavesNone(s[1..], p, r, name);
      AbsentAfterKept(s, p, r, name);
    }
  }

  /**
   * Substituting safe parameters leaves no placeholder of a supplied name,
   * nor one of a name whose placeholder the text did not hold.
   */
  lemma {:induction false} SubstituteLeavesNone(value: string, params: seq<(string, string)>, name: string)
    requires forall j :: 0 <= j < |params| ==> SafeValue(params[j].1, name)
    requires (exists i :: 0 <= i < |params| && params[i].0 == name) || !Contains(value, Placeholder(name))
    ensures !Contains(Substitute(value, params), Placeholder(name))
    decreases |params|
  {
    if params != [] {
      var next := ReplaceAll(value, Placeholder(params[0].0), params[0].1);
      if params[0].0 == name || !Contains(value, Placeholder(name)) {
        ReplaceLeavesNone(value, Placeholder(params[0].0), params[0].1, name);
      } else {
        var i :| 0 <= i < |params| && params[i].0 == name;
        assert params[1..][i - 1].0 == name;
      }
      assert forall j :: 0 <= j < |params| - 1 ==> params[1..][j] == params[j + 1];
      SubstituteLeavesNone(next, params[1..], name);
    }
  }

  /** The placeholder guarantee of `t`: with safe parameters, no `{{name}}` of a supplied name is left. */
  lemma NoPlaceholderLeft(value: string, params: seq<(string, string)>)
    requires SafeParams(params)
    ensures forall i :: 0 <= i < |params| ==> !Contains(Substitute(value, params), Placeholder(params[i].0))
  {
    forall i | 0 <= i < |params|
      ensures !Contains(Substitute(value, params), Placeholder(params[i].0))
    {
      SubstituteLeavesNone(value, params, params[i].0);
    }
  }

  /**
   * Values free of later placeholders are not enough: a brace in a value can
   * complete a placeholder that the replace itself broke apart.
   */
  lemma BraceValueLeavesPlaceholder()
    ensures Substitute("{{{a}}a}}", [("a", "{")]) == "{{a}}"
    ensures Contains(Substitute("{{{a}}a}}", [("a", "{")]), Placeholder("a"))
  {
    var s := "{{{a}}a}}";
    assert Placeholder("a") == "{{a}}";
    assert s[..5][2] != "{{a}}"[2];
    assert s[1..] == "{{a}}a}}";
    assert ReplaceAll("a}}", "{{a}}", "{") == "a}}";
    assert ReplaceAll(s[1..], "{{a}}", "{") == "{a}}";
    assert ReplaceAll(s, "{{a}}", "{") == "{{a}}";
    assert OccursAt("{{a}}", Placeholder("a"), 0);
  }

  /** Neither is leaving braces out: an empty value glues the text around it into a placeholder. */
  lemma EmptyValueLeavesPlaceholder()
    ensures Substitute("{{{{a}}a}}", [("a", "")]) == "{{a}}"
  {
    var s := "{{{{a}}a}}";
    assert Placeholder("a") == "{{a}}";
    assert s[..5][2] != "{{a}}"[2];
    assert s[1..] == "{{{a}}a}}";
    assert s[1..][..5][2] != "{{a}}"[2];
    assert s[2..] == "{{a}}a}}";
    assert ReplaceAll("a}}", "{{a}}", "") == "a}}";
    assert ReplaceAll(s[2..], "{{a}}", "") == "a}}";
    assert ReplaceAll(s[1..], "{{a}}", "") == "{a}}";
    assert ReplaceAll(s, "{{a}}", "") == "{{a}}";
  }

  // ---------------------------------------------------------------------
  // The provider
  // ---------------------------------------------------------------------

  datatype Language = En | Es

  function LanguageCode(l: Language): string {
    match l
    case En => "en"
    case Es => "es"
  }

  const LanguageKey := "language"

  /** The language at start-up: the stored one when it is `en` or `es`, English otherwise. */
  function InitialLanguage(stored: Option<string>): (l: Language)
    ensures l == Es <==> stored == Some("es")
    ensures stored.Some? && (stored.value == "en" || stored.value == "es") ==> LanguageCode(l) == stored.value
  {
    if stored == Some("es") then Es else En
  }

  /** A saved language is the one restored. */
  lemma LanguageRoundTrip(l: Language)
    ensures InitialLanguage(Some(LanguageCode(l))) == l
  {
  }

  /** The two translation bundles. */
  datatype Bundles = Bundles(en: map<string, Json>, es: map<string, Json>) {
    function For(l: Language): map<string, Json> {
      match l
      case En => en
      case Es => es
    }
  }

  class LanguageProvider {
    const store: LocalStorage
    const bundles: Bundles
    var language: Language

    constructor (store: LocalStorage, bundles: Bundles)
      ensures this.store == store && this.bundles == bundles
      ensures language == InitialLanguage(store.Get(LanguageKey))
    {
      this.store := store;
      this.bundles := bundles;
      language := InitialLanguage(store.Get(LanguageKey));
    }

    /** `setLanguage(l)`: switches and persists, so the next start-up restores `l`. */
    method SetLanguage(l: Language)
      modifies this, store
      ensures language == l
      ensures store.items == old(store.items)[LanguageKey := LanguageCode(l)]
      ensures InitialLanguage(store.Get(LanguageKey)) == l
    {
      language := l;
      store.SetItem(LanguageKey, LanguageCode(l));
    }

    /**
     * `t(key, params)`: the bundle's text for the key (or the key), with each
     * parameter's placeholders replaced in turn. Without parameters it is the
     * lookup alone.
     */
    method T(key: string, params: Option<seq<(string, string)>>) returns (value: string)
      ensures params.None? ==> value == GetNestedValue(bundles.For(language), key)
      ensures params.Some? ==> value == Substitute(GetNestedValue(bundles.For(language), key), params.value)
    {
      value := GetNestedValue(bundles.For(language), key);
      if params.Some? {
        var ps := params.value;
        ghost var looked := value;
        for i := 0 to |ps|
          invariant Substitute(value, ps[i..]) == Substitute(looked, ps)
        {
          assert ps[i..][1..] == ps[i + 1..];
          value := ReplaceAll(value, Placeholder(ps[i].0), ps[i].1);
        }
      }
    }
  }
}
