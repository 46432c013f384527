/**
 * The persister's content assembly: joining the collected contents of a bundle and
 * finishing them according to the bundle's extension.
 */
module Persister {
  import opened Wrappers
  import opened Paths

  /** `Array.prototype.join(sep)`. */
  function JoinWith(parts: seq<string>, sep: string): string
  {
    if |parts| == 0 then ""
    else if |parts| == 1 then parts[0]
    else parts[0] + sep + JoinWith(parts[1..], sep)
  }

  /** `String.prototype.split(c)` for a one-character separator. */
  function Split(s: string, c: char): (parts: seq<string>)
    ensures |parts| >= 1
  {
    if |s| == 0 then [""]
    else
      var rest := Split(s[1..], c);
      if s[0] == c then [""] + rest else [[s[0]] + rest[0]] + rest[1..]
  }

  lemma {:induction false} SplitWithout(p: string, c: char)
    requires c !in p
    ensures Split(p, c) == [p]
  {
    if |p| > 0 {
      SplitWithout(p[1..], c);
      assert [p[0]] + p[1..] == p;
    }
  }

  lemma {:induction false} SplitAfter(p: string, c: char, s: string)
    requires c !in p
    ensures Split(p + [c] + s, c) == [p] + Split(s, c)
  {
    if |p| == 0 {
      assert p + [c] + s == [c] + s;
      assert ([c] + s)[1..] == s;
    } else {
      assert (p + [c] + s)[1..] == p[1..] + [c] + s;
      SplitAfter(p[1..], c, s);
      assert [p[0]] + p[1..] == p;
    }
  }

  /**
   * Joining with a one-character separator that no part contains can be undone by
   * splitting: the parts come back in order.
   */
  lemma {:induction false} SplitJoin(parts: seq<string>, c: char)
    requires |parts| >= 1
    requires forall i :: 0 <= i < |parts| ==> c !in parts[i]
    ensures Split(JoinWith(parts, [c]), c) == parts
  {
    if |parts| == 1 {
      SplitWithout(parts[0], c);
    } else {
      SplitJoin(parts[1..], c);
      SplitAfter(parts[0], c, JoinWith(parts[1..], [c]));
      assert [parts[0]] + parts[1..] == parts;
    }
  }

  /** The two minifiers, opaque: the CSS one always yields text, the JS one may report
      an error (or throw), both modelled as `None`. */
  datatype Minifiers = Minifiers(css: string -> string, js: string -> Option<string>)

  /**
   * The text `save` writes for a bundle, or `None` when it writes nothing: a bundle
   * whose extension is not `.css`, `.html` or `.js`, or a JS bundle whose minifier fails.
   */
  function Assemble(name: string, contents: seq<string>, minify: Minifiers): (text: Option<string>)
    ensures text.None? <==>
      (Extname(name) != ".css" && Extname(name) != ".html" && Extname(name) != ".js")
      || (Extname(name) == ".js" && minify.js(JoinWith(contents, "")).None?)
  {
    match Extname(name)
    case ".css" => Some(minify.css(JoinWith(contents, "\n")))
    case ".html" => Some(JoinWith(contents, "\n"))
    case ".js" => minify.js(JoinWith(contents, ""))
    case _ => None
  }
}
