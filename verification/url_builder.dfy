/**
 * The URL builder for the vendor's API: the fixed base URL followed by the
 * path components joined with "/". The URL is recompiled from the current
 * components on every read.
 */
module UrlBuilder {
  import opened Common

  const Protocol := "https"
  const ApiDomain := "api.bestbuy.com"
  const BaseUrl := Protocol + "://" + ApiDomain + "/"

  /** Python's `sep.join(parts)`: the parts with `sep` between each two neighbours. */
  function Join(parts: seq<string>, sep: string): string
  {
    if |parts| == 0 then ""
    else if |parts| == 1 then parts[0]
    else parts[0] + sep + Join(parts[1..], sep)
  }

  /** The total length of the parts. */
  function SumLengths(parts: seq<string>): nat
  {
    if parts == [] then 0 else |parts[0]| + SumLengths(parts[1..])
  }

  /** Python's `s.split(sep)` for a one-character separator; splitting "" yields [""]. */
  function Split(s: string, sep: char): (r: seq<string>)
    ensures |r| >= 1
  {
    if s == [] then [""]
    else if s[0] == sep then [""] + Split(s[1..], sep)
    else
      var rest := Split(s[1..], sep);
      [[s[0]] + rest[0]] + rest[1..]
  }

  /** The URL for the given path components. */
  function BuildUrl(components: seq<string>): (url: string)
    ensures |url| >= 24 && url[..24] == "https://api.bestbuy.com/"
    ensures components == [] ==> url == "https://api.bestbuy.com/"
    ensures |components| == 1 ==> url == "https://api.bestbuy.com/" + components[0]
  {
    BaseUrl + Join(components, "/")
  }

  /** A join of n >= 1 parts is as long as the parts plus n - 1 separators. */
  lemma {:induction false} JoinLength(parts: seq<string>, sep: string)
    requires |parts| >= 1
    ensures |Join(parts, sep)| == SumLengths(parts) + (|parts| - 1) * |sep|
  {
    if |parts| > 1 {
      JoinLength(parts[1..], sep);
      assert (|parts| - 1) * |sep| == (|parts[1..]| - 1) * |sep| + |sep|;
    }
  }

  /** A part without the separator splits to itself alone. */
  lemma {:induction false} SplitWithoutSeparator(p: string, sep: char)
    requires sep !in p
    ensures Split(p, sep) == [p]
  {
    if p != [] {
      SplitWithoutSeparator(p[1..], sep);
      assert [p[0]] + p[1..] == p;
    }
  }

  /** Splitting at the first separator, when the part before it holds no separator. */
  lemma {:induction false} SplitAfterPart(p: string, sep: char, t: string)
    requires sep !in p
    ensures Split(p + [sep] + t, sep) == [p] + Split(t, sep)
  {
    var s := p + [sep] + t;
    if p == [] {
      assert s == [sep] + t;
      assert s[1..] == t;
    } else {
      assert s[0] == p[0];
      assert s[1..] == p[1..] + [sep] + t;
      SplitAfterPart(p[1..], sep, t);
      assert [p[0]] + p[1..] == p;
    }
  }

  /** Splitting a join recovers the parts when none of them contains the separator. */
  lemma {:induction false} SplitJoin(parts: seq<string>, sep: char)
    requires |parts| >= 1
    requires forall i :: 0 <= i < |parts| ==> sep !in parts[i]
    ensures Split(Join(parts, [sep]), sep) == parts
  {
    if |parts| == 1 {
      SplitWithoutSeparator(parts[0], sep);
    } else {
      SplitJoin(parts[1..], sep);
      SplitAfterPart(parts[0], sep, Join(parts[1..], [sep]));
      assert [parts[0]] + parts[1..] == parts;
    }
  }

  /** The URL is the base plus the component lengths plus one "/" between each two components. */
  lemma UrlLength(components: seq<string>)
    requires |components| >= 1
    ensures |BuildUrl(components)| == 24 + SumLengths(components) + |components| - 1
  {
    JoinLength(components, "/");
  }

  /** The path after the base splits on "/" back into the components, when none holds a "/". */
  lemma UrlPathSplits(components: seq<string>)
    requires |components| >= 1
    requires forall i :: 0 <= i < |components| ==> '/' !in components[i]
    ensures Split(BuildUrl(components)[24..], '/') == components
  {
    assert BuildUrl(components)[24..] == Join(components, "/");
    SplitJoin(components, '/');
  }

  /** The example of the builder's documentation: components "search" and "contact". */
  lemma SearchContactUrl()
    ensures BuildUrl(["search", "contact"]) == "https://api.bestbuy.com/search/contact"
  {
  }

  /** BestBuyURLBuilder: the path components and the URL compiled from them last. */
  class BestBuyUrlBuilder {
    var pathComponents: seq<string>
    var compiledUrl: Option<string>

    /** Sets the path to `args` and compiles the URL once. */
    constructor (args: seq<string>)
      ensures pathComponents == args
      ensures compiledUrl == Some(BuildUrl(args))
    {
      pathComponents := [];
      compiledUrl := None;
      new;
      SetPath(args);
      CompileUrl();
    }

    /** Replaces the path components; the compiled URL is left as it was. */
    method SetPath(args: seq<string>)
      modifies this
      ensures pathComponents == args
      ensures compiledUrl == old(compiledUrl)
    {
      pathComponents := args;
    }

    /** Builds the URL from the current components and keeps it. */
    method CompileUrl()
      modifies this
      ensures pathComponents == old(pathComponents)
      ensures compiledUrl == Some(BuildUrl(pathComponents))
    {
      var baseUrl := Protocol + "://" + ApiDomain + "/";
      var path := Join(pathComponents, "/");
      compiledUrl := Some(baseUrl + path);
    }

    /**
     * The `url` property: compiles the URL from the current components and
     * returns it, so a read always reflects the latest SetPath and two reads
     * in a row return the same string.
     */
    method Url() returns (u: string)
      modifies this
      ensures u == BuildUrl(pathComponents)
      ensures pathComponents == old(pathComponents)
      ensures compiledUrl == Some(u)
    {
      CompileUrl();
      u := compiledUrl.value;
    }
  }
}
