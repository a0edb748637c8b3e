/**
 * The Flask application of web_flask/2-c_route.py: its three view functions
 * and the table of URL rules that routes a request path to one of them.
 */
module CRoute {
  import opened Wrappers

  /** `text.replace("_", " ")` */
  function ReplaceUnderscores(t: string): (r: string)
    ensures |r| == |t|
    ensures forall i :: 0 <= i < |t| ==> r[i] == if t[i] == '_' then ' ' else t[i]
  {
    if t == [] then [] else [if t[0] == '_' then ' ' else t[0]] + ReplaceUnderscores(t[1..])
  }

  /** No underscore survives, and text without one is returned as it is. */
  lemma ReplaceUnderscoresClears(t: string)
    ensures '_' !in ReplaceUnderscores(t)
    ensures '_' !in t ==> ReplaceUnderscores(t) == t
    ensures ReplaceUnderscores(ReplaceUnderscores(t)) == ReplaceUnderscores(t)
  {
    var r := ReplaceUnderscores(t);
    assert forall i :: 0 <= i < |r| ==> r[i] != '_';
  }

  /** The view of `/c/<text>`: `"C "` followed by the text with underscores turned into spaces. */
  function CText(text: string): (r: string)
    ensures |r| == |text| + 2
    ensures r[..2] == "C "
    ensures '_' !in r[2..]
    ensures forall i :: 0 <= i < |text| && text[i] == '_' ==> r[i + 2] == ' '
    ensures forall i :: 0 <= i < |text| && text[i] != '_' ==> r[i + 2] == text[i]
  {
    ReplaceUnderscoresClears(text);
    var r := "C " + ReplaceUnderscores(text);
    assert r[2..] == ReplaceUnderscores(text);
    r
  }

  /** The view functions of the application. */
  datatype View = HbnbRoute | Hbnb | CTextView

  /** What a view returns; only `c_text` looks at the text its rule captured. */
  function Respond(v: View, text: string): (r: string)
    ensures v == HbnbRoute ==> r == "Hello HBNB"
    ensures v == Hbnb ==> r == "HBNB"
    ensures v == CTextView ==> |r| == |text| + 2 && r[..2] == "C "
    ensures v == CTextView ==> r == CText(text)
  {
    match v
    case HbnbRoute => "Hello HBNB"
    case Hbnb => "HBNB"
    case CTextView => CText(text)
  }

  /** A URL rule: a fixed path, or a fixed prefix followed by a `<string:text>` segment. */
  datatype Rule =
    | Static(path: string, view: View)
    | WithText(prefix: string, view: View)

  /** A `string` converter takes one non-empty path segment: any text without a `/`. */
  predicate Segment(s: string) {
    |s| > 0 && '/' !in s
  }

  /** The view a rule sends `path` to, with the text it captured, if the rule matches. */
  function Match(rule: Rule, path: string): (r: Option<(View, string)>)
    ensures r.Some? ==> r.value.0 == rule.view
    ensures rule.Static? ==> (r.Some? <==> path == rule.path)
    ensures rule.WithText? ==> (r.Some? <==> exists t :: path == rule.prefix + t && Segment(t))
  {
    match rule
    case Static(p, v) => if path == p then Some((v, "")) else None
    case WithText(p, v) =>
      if |p| <= |path| && path[..|p|] == p && Segment(path[|p|..]) then
        assert path == p + path[|p|..];
        Some((v, path[|p|..]))
      else
        assert forall t :: path == p + t ==> t == path[|p|..];
        None
  }

  /** The first rule, in registration order, that matches `path` decides; no match is a 404. */
  function Route(rules: seq<Rule>, path: string): (r: Option<(View, string)>)
    ensures r.Some? ==> exists i :: 0 <= i < |rules| && rules[i].view == r.value.0
    ensures r.Some? <==> exists i :: (0 <= i < |rules| && Match(rules[i], path).Some?)
    ensures r.Some? ==> exists i :: (0 <= i < |rules| && Match(rules[i], path) == r &&
                                     forall j :: 0 <= j < i ==> Match(rules[j], path).None?)
  {
    if rules == [] then None
    else match Match(rules[0], path)
      case Some(hit) => Some(hit)
      case None =>
        var r := Route(rules[1..], path);
        if r.Some? then
          var i :| 0 <= i < |rules[1..]| && Match(rules[1..][i], path) == r &&
                   forall j :: 0 <= j < i ==> Match(rules[1..][j], path).None?;
          assert Match(rules[i + 1], path) == r;
          assert forall j :: 0 <= j < i + 1 ==> Match(rules[j], path).None? by {
            forall j | 0 <= j < i + 1
              ensures Match(rules[j], path).None?
            {
              if j > 0 { assert rules[j] == rules[1..][j - 1]; }
            }
          }
          r
        else
          assert forall i :: 0 <= i < |rules| ==> Match(rules[i], path).None? by {
            forall i | 0 <= i < |rules|
              ensures Match(rules[i], path).None?
            {
              if i > 0 { assert rules[i] == rules[1..][i - 1]; }
            }
          }
          r
  }

  /** The response body for `path`, or `None` for a 404. */
  function Serve(rules: seq<Rule>, path: string): Option<string> {
    match Route(rules, path)
    case Some(hit) => Some(Respond(hit.0, hit.1))
    case None => None
  }

  /** The rules as the file registers them: `hbnb` is bound to `/`, a second time. */
  const AsWritten: seq<Rule> := [Static("/", HbnbRoute), Static("/", Hbnb), WithText("/c/", CTextView)]

  /** The rules the application evidently means, with `hbnb` at `/hbnb` as in web_flask/1-hbnb_route.py. */
  const Intended: seq<Rule> := [Static("/", HbnbRoute), Static("/hbnb", Hbnb), WithText("/c/", CTextView)]

  /** With the rules as written, no request reaches `hbnb`, and `/hbnb` is not found. */
  lemma AsWrittenHbnbUnreachable(path: string)
    ensures Route(AsWritten, path).Some? ==> Route(AsWritten, path).value.0 != Hbnb
    ensures Serve(AsWritten, "/hbnb") == None
  {
    var rest := AsWritten[1..];
    assert rest[1..] == [WithText("/c/", CTextView)];
    assert rest[1..][1..] == [];
    if path == "/" {
      assert Route(AsWritten, path) == Some((HbnbRoute, ""));
    } else {
      assert Match(AsWritten[0], path) == None;
      assert Route(AsWritten, path) == Route(rest, path);
      assert Match(rest[0], path) == None;
      assert Route(rest, path) == Route(rest[1..], path);
    }
    var h := "/hbnb";
    assert h[..3] != "/c/" by { assert h[1] == 'h'; }
    assert Match(WithText("/c/", CTextView), h) == None;
  }

  /** `/` is served by `hbnb_route` under either table. */
  lemma RootServed()
    ensures Serve(AsWritten, "/") == Some("Hello HBNB")
    ensures Serve(Intended, "/") == Some("Hello HBNB")
  {
  }

  /** With the intended rules, each view is reached through its own path. */
  lemma IntendedRoutes(text: string)
    requires Segment(text)
    ensures Serve(Intended, "/") == Some("Hello HBNB")
    ensures Serve(Intended, "/hbnb") == Some("HBNB")
    ensures Serve(Intended, "/c/" + text) == Some(CText(text))
  {
    var p := "/c/" + text;
    assert p[1] == 'c';
    assert p != "/" && p != "/hbnb";
    assert p[..3] == "/c/" && p[3..] == text;
    var rest := Intended[1..];
    assert rest[1..] == [WithText("/c/", CTextView)];
    assert Route(Intended, p) == Route(rest, p) == Route(rest[1..], p);
    var h := "/hbnb";
    assert h[..3] != "/c/" by { assert h[1] == 'h'; }
    assert Route(Intended, h) == Route(rest, h) == Some((Hbnb, ""));
  }
}
