/**
  The identifier model: resolving a short name against the base namespace
  (`_uri`), recovering the short name from an IRI (`_local_name`), and the
  string normalisations the namespace code applies to base IRIs.
*/
module Naming {
  import opened Wrappers
  import opened Rdf

  predicate IsAbsolute(name: string) {
    "http://" <= name || "https://" <= name
  }

  predicate EndsWithSep(s: string) {
    |s| > 0 && (s[|s| - 1] == '#' || s[|s| - 1] == '/')
  }

  /** `_uri`: an absolute name is kept as it is, anything else is appended to the base. */
  function Uri(base: string, name: string): Node {
    if IsAbsolute(name) then Iri(name) else Iri(base + name)
  }

  /** A short name that survives the resolve-and-extract round trip: no separator in it. */
  predicate PlainName(name: string) {
    '#' !in name && '/' !in name
  }

  lemma PlainIsRelative(name: string)
    requires '/' !in name
    ensures !IsAbsolute(name)
  {
    assert forall i | 0 <= i < |name| :: name[i] != '/';
    assert "http://"[5] == '/' && "https://"[6] == '/';
  }

  /** A base that `_local_name` splits exactly at its end. */
  predicate WellFormedBase(base: string) {
    |base| > 0 && (base[|base| - 1] == '#' || (base[|base| - 1] == '/' && '#' !in base))
  }

  /** The text after the last `c` in `s`, or all of `s` when `c` does not occur. */
  function AfterLast(s: string, c: char): (r: string)
    ensures |r| <= |s| && r == s[|s| - |r|..]
    ensures c !in r
    ensures c in s ==> |r| < |s| && s[|s| - |r| - 1] == c
    ensures c !in s ==> r == s
    decreases |s|
  {
    if s == [] then []
    else if s[|s| - 1] == c then []
    else
      var init := s[..|s| - 1];
      assert s == init + [s[|s| - 1]];
      AfterLast(init, c) + [s[|s| - 1]]
  }

  /** `_local_name`: the text after the last '#' if there is one, else after the last '/'. */
  function LocalName(u: string): (r: string)
    ensures |r| <= |u| && r == u[|u| - |r|..]
    ensures '#' !in r
    ensures '#' in u ==> u[|u| - |r| - 1] == '#'
    ensures '#' !in u ==> '/' !in r
    ensures '#' !in u && '/' in u ==> u[|u| - |r| - 1] == '/'
    ensures '#' !in u && '/' !in u ==> r == u
  {
    if '#' in u then AfterLast(u, '#')
    else
      var r := AfterLast(u, '/');
      assert forall i | 0 <= i < |r| :: r[i] == u[|u| - |r| + i];
      r
  }

  lemma {:induction false} AfterLastAppend(s: string, t: string, c: char)
    requires |s| > 0 && s[|s| - 1] == c
    requires c !in t
    ensures AfterLast(s + t, c) == t
    decreases |t|
  {
    if t == [] {
      assert s + t == s;
    } else {
      var st := s + t;
      assert st[..|st| - 1] == s + t[..|t| - 1];
      assert st[|st| - 1] == t[|t| - 1];
      AfterLastAppend(s, t[..|t| - 1], c);
      assert t == t[..|t| - 1] + [t[|t| - 1]];
    }
  }

  /** A plain name resolved against a well-formed base is read back unchanged. */
  lemma LocalNameOfUri(base: string, name: string)
    requires WellFormedBase(base) && PlainName(name)
    ensures Uri(base, name) == Iri(base + name)
    ensures LocalName(Uri(base, name).iri) == name
  {
    PlainIsRelative(name);
    var u := base + name;
    if base[|base| - 1] == '#' {
      assert u[|base| - 1] == '#';
      AfterLastAppend(base, name, '#');
    } else {
      assert '#' !in u by {
        forall i | 0 <= i < |u| ensures u[i] != '#' {
          if i < |base| { assert u[i] == base[i]; } else { assert u[i] == name[i - |base|]; }
        }
      }
      AfterLastAppend(base, name, '/');
    }
  }

  /** Distinct relative names resolve to distinct IRIs. */
  lemma UriInjective(base: string, a: string, b: string)
    requires !IsAbsolute(a) && !IsAbsolute(b)
    requires Uri(base, a) == Uri(base, b)
    ensures a == b
  {
    assert (base + a)[|base|..] == a;
    assert (base + b)[|base|..] == b;
  }

  /** Python's str.rstrip(c) for a single character. */
  function StripTrailing(s: string, c: char): (r: string)
    ensures r <= s
    ensures r == [] || r[|r| - 1] != c
    ensures forall i | |r| <= i < |s| :: s[i] == c
    decreases |s|
  {
    if s != [] && s[|s| - 1] == c then StripTrailing(s[..|s| - 1], c) else s
  }

  /** The ontology IRI derived from a base: `base.rstrip("#").rstrip("/")`. */
  function OntologyIri(base: string): string {
    StripTrailing(StripTrailing(base, '#'), '/')
  }

  /** set_base_uri's normalisation: add '#' unless the IRI already ends in '#' or '/'. */
  function NormalizeBase(b: string): (r: string)
    ensures EndsWithSep(r)
    ensures b <= r && |r| <= |b| + 1
    ensures EndsWithSep(b) <==> r == b
  {
    if EndsWithSep(b) then b else b + "#"
  }

  /** Substring containment, Python's `sub in s`. */
  predicate Contains(s: string, sub: string)
    ensures Contains(s, sub) ==> |sub| <= |s|
    decreases |s|
  {
    sub <= s || (s != [] && Contains(s[1..], sub))
  }

  /**
    The separator inference of `_update_namespace_from_graph`: given the loaded
    ontology IRI and a sample class or property IRI (if any), the base to use.
  */
  function InferBase(ont: string, sample: Option<string>): (r: string)
    ensures EndsWithSep(r)
    ensures ont <= r && |r| <= |ont| + 1
    ensures EndsWithSep(ont) ==> r == ont
    ensures !EndsWithSep(ont) ==> |r| == |ont| + 1
    ensures r == ont + "/" <==>
      && !EndsWithSep(ont)
      && sample.Some? && sample.value != "" && Contains(sample.value, ont)
      && |sample.value| > |ont| && sample.value[|ont|] == '/'
  {
    if EndsWithSep(ont) then ont
    else if sample.Some? && sample.value != "" && Contains(sample.value, ont) then
      var rem := sample.value[|ont|..];
      if "/" <= rem then ont + "/" else ont + "#"
    else ont + "#"
  }

  lemma StripSeparator(ont: string, c: char)
    requires c == '#' || c == '/'
    requires !EndsWithSep(ont)
    ensures OntologyIri(ont + [c]) == ont
  {
    var s := ont + [c];
    assert s[..|s| - 1] == ont;
    if c == '#' {
      assert StripTrailing(s, '#') == StripTrailing(ont, '#');
    } else {
      assert StripTrailing(s, '#') == s;
      assert StripTrailing(s, '/') == StripTrailing(ont, '/');
    }
  }

  /**
    Re-deriving the ontology IRI from an inferred base gives back the loaded
    ontology IRI, whichever separator was inferred.
  */
  lemma InferBaseRoundTrip(ont: string, sample: Option<string>)
    requires !EndsWithSep(ont)
    ensures OntologyIri(InferBase(ont, sample)) == ont
  {
    var r := InferBase(ont, sample);
    assert r == ont + [r[|r| - 1]];
    StripSeparator(ont, r[|r| - 1]);
  }
}
