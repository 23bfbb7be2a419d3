/**
 * The strings the server assembles for the main page and for the options
 * script: the `<script>` and `<link>` tags folded from the configured asset
 * lists, their substitution into the page template, and the
 * `var project = …;` wrapper.
 */
module Pages {
  import opened JsBuiltins

  /** The fixed text around the URL in the two kinds of tag. */
  const ScriptOpen := "<script src=\""
  const ScriptClose := "\"></script>\n"
  const StylesheetOpen := "<link rel=\"stylesheet\" href=\""
  const StylesheetClose := "\" />\n"

  /** Neither `%` nor `$` occurs in the fixed text of a script tag. */
  lemma ScriptTextFree()
    ensures '%' !in ScriptOpen && '%' !in ScriptClose
    ensures '$' !in ScriptOpen && '$' !in ScriptClose
  {
  }

  /** No `$` occurs in the fixed text of a stylesheet tag. */
  lemma StylesheetTextFree()
    ensures '$' !in StylesheetOpen && '$' !in StylesheetClose
  {
  }

  /** The tag emitted for one configured script URL. */
  function ScriptTag(src: string): string {
    ScriptOpen + src + ScriptClose
  }

  /** The tag emitted for one configured stylesheet URL. */
  function StylesheetTag(href: string): string {
    StylesheetOpen + href + StylesheetClose
  }

  /** `urls.reduce((a, b) => a + tag(b), acc)`: a left fold from `acc`. */
  function ReduceTags(tag: string -> string, acc: string, urls: seq<string>): string
    decreases |urls|
  {
    if urls == [] then acc else ReduceTags(tag, acc + tag(urls[0]), urls[1..])
  }

  /** The reference reading: one tag per URL, in order. */
  function ConcatTags(tag: string -> string, urls: seq<string>): string
    decreases |urls|
  {
    if urls == [] then "" else tag(urls[0]) + ConcatTags(tag, urls[1..])
  }

  /** The left fold from `acc` is `acc` followed by the in-order concatenation of the tags. */
  lemma {:induction false} ReduceIsConcat(tag: string -> string, acc: string, urls: seq<string>)
    ensures ReduceTags(tag, acc, urls) == acc + ConcatTags(tag, urls)
    decreases |urls|
  {
    if urls != [] {
      ReduceIsConcat(tag, acc + tag(urls[0]), urls[1..]);
    }
  }

  /** The tags of two lists in a row are the tags of the first followed by those of the second. */
  lemma {:induction false} ConcatTagsAppend(tag: string -> string, a: seq<string>, b: seq<string>)
    ensures ConcatTags(tag, a + b) == ConcatTags(tag, a) + ConcatTags(tag, b)
    decreases |a|
  {
    if a != [] {
      assert (a + b)[0] == a[0] && (a + b)[1..] == a[1..] + b;
      ConcatTagsAppend(tag, a[1..], b);
    } else {
      assert a + b == b;
    }
  }

  /** A character found in no URL and in no tag around a URL is absent from the concatenation. */
  lemma {:induction false} ConcatTagsAvoid(tag: string -> string, urls: seq<string>, c: char)
    requires forall i :: 0 <= i < |urls| ==> c !in tag(urls[i])
    ensures c !in ConcatTags(tag, urls)
    decreases |urls|
  {
    if urls != [] {
      ConcatTagsAvoid(tag, urls[1..], c);
    }
  }

  /** The `js` string of `main`: one script tag per configured URL, in order; `''` for none. */
  function ScriptTags(urls: seq<string>): (r: string)
    ensures r == ConcatTags(ScriptTag, urls)
    ensures urls == [] ==> r == ""
  {
    ReduceIsConcat(ScriptTag, "", urls);
    ReduceTags(ScriptTag, "", urls)
  }

  /** The `css` string of `main`: one stylesheet tag per configured URL, in order; `''` for none. */
  function StylesheetTags(urls: seq<string>): (r: string)
    ensures r == ConcatTags(StylesheetTag, urls)
    ensures urls == [] ==> r == ""
  {
    ReduceIsConcat(StylesheetTag, "", urls);
    ReduceTags(StylesheetTag, "", urls)
  }

  /** The placeholders of the page template. */
  const JsPlaceholder := "%%JS%%"
  const CssPlaceholder := "%%CSS%%"

  /**
   * The page `main` sends, as the code computes it: two `replace` calls with
   * `$`-expansion. A template holding neither placeholder is sent unchanged.
   */
  function MainPage(template: string, jsUrls: seq<string>, cssUrls: seq<string>): (r: string)
    ensures ((forall k: nat :: !MatchesAt(template, JsPlaceholder, k)) &&
             (forall k: nat :: !MatchesAt(template, CssPlaceholder, k))) ==> r == template
  {
    var data := ReplaceFirst(template, JsPlaceholder, ScriptTags(jsUrls));
    ReplaceFirst(data, CssPlaceholder, StylesheetTags(cssUrls))
  }

  /** The page with the tag strings inserted literally, as evidently intended. */
  function MainPageIntended(template: string, jsUrls: seq<string>, cssUrls: seq<string>): string {
    var data := ReplaceFirstLiteral(template, JsPlaceholder, ScriptTags(jsUrls));
    ReplaceFirstLiteral(data, CssPlaceholder, StylesheetTags(cssUrls))
  }

  /** A character absent from the URLs and from the fixed text of a script tag is absent from the script tags. */
  lemma ScriptTagsAvoid(urls: seq<string>, c: char)
    requires c !in ScriptOpen && c !in ScriptClose
    requires forall i :: 0 <= i < |urls| ==> c !in urls[i]
    ensures c !in ScriptTags(urls)
  {
    forall i | 0 <= i < |urls| ensures c !in ScriptTag(urls[i]) {
    }
    ConcatTagsAvoid(ScriptTag, urls, c);
  }

  /** A character absent from the URLs and from the fixed text of a stylesheet tag is absent from the stylesheet tags. */
  lemma StylesheetTagsAvoid(urls: seq<string>, c: char)
    requires c !in StylesheetOpen && c !in StylesheetClose
    requires forall i :: 0 <= i < |urls| ==> c !in urls[i]
    ensures c !in StylesheetTags(urls)
  {
    forall i | 0 <= i < |urls| ensures c !in StylesheetTag(urls[i]) {
    }
    ConcatTagsAvoid(StylesheetTag, urls, c);
  }

  /**
   * A template `pre %%JS%% mid %%CSS%% post` receives the script tags in
   * place of the first placeholder and the stylesheet tags in place of the
   * second, provided no `%%JS%%` starts inside `pre` and no `%%CSS%%` starts
   * inside the text before the second placeholder once the first is replaced.
   */
  lemma MainPageIntendedLayout(pre: string, mid: string, post: string, jsUrls: seq<string>, cssUrls: seq<string>)
    requires NoMatchStartsIn(pre, JsPlaceholder)
    requires NoMatchStartsIn(pre + ScriptTags(jsUrls) + mid, CssPlaceholder)
    ensures MainPageIntended(pre + JsPlaceholder + mid + CssPlaceholder + post, jsUrls, cssUrls)
      == pre + ScriptTags(jsUrls) + mid + StylesheetTags(cssUrls) + post
  {
    var js, css := ScriptTags(jsUrls), StylesheetTags(cssUrls);
    var rest := mid + CssPlaceholder + post;
    Regroup(pre, JsPlaceholder, mid, CssPlaceholder, post);
    ReplaceFirstAfter(pre, JsPlaceholder, rest, js);
    Regroup(pre, js, mid, CssPlaceholder, post);
    ReplaceFirstAfter(pre + js + mid, CssPlaceholder, post, css);
    Regroup(pre, js, mid, css, post);
  }

  /**
   * The same for a template `pre %%CSS%% mid %%JS%% post` with the
   * stylesheet placeholder first: no `%%JS%%` may start before the script
   * placeholder and no `%%CSS%%` inside `pre`.
   */
  lemma MainPageIntendedLayoutCssFirst(pre: string, mid: string, post: string, jsUrls: seq<string>, cssUrls: seq<string>)
    requires NoMatchStartsIn(pre + CssPlaceholder + mid, JsPlaceholder)
    requires NoMatchStartsIn(pre, CssPlaceholder)
    ensures MainPageIntended(pre + CssPlaceholder + mid + JsPlaceholder + post, jsUrls, cssUrls)
      == pre + StylesheetTags(cssUrls) + mid + ScriptTags(jsUrls) + post
  {
    var js, css := ScriptTags(jsUrls), StylesheetTags(cssUrls);
    var head, tail := pre + CssPlaceholder + mid, mid + js + post;
    Regroup(pre, CssPlaceholder, mid, JsPlaceholder, post);
    ReplaceFirstAfter(head, JsPlaceholder, post, js);
    Regroup(pre, CssPlaceholder, mid, js, post);
    ReplaceFirstAfter(pre, CssPlaceholder, tail, css);
    Regroup(pre, css, mid, js, post);
  }

  /** The regroupings of five pieces that the layout proofs use. */
  lemma Regroup(a: string, b: string, c: string, d: string, e: string)
    ensures a + b + c + d + e == (a + b + c) + d + e == a + b + (c + d + e)
  {
  }

  /** Texts without `%` admit neither placeholder. */
  lemma PercentFreeNoPlaceholder(a: string)
    requires '%' !in a
    ensures NoMatchStartsIn(a, JsPlaceholder) && NoMatchStartsIn(a, CssPlaceholder)
  {
    FirstCharNotIn(a, JsPlaceholder);
    FirstCharNotIn(a, CssPlaceholder);
  }

  /** With no `$` in any URL, the page as written is the page as intended. */
  lemma MainPageAgrees(template: string, jsUrls: seq<string>, cssUrls: seq<string>)
    requires forall i :: 0 <= i < |jsUrls| ==> '$' !in jsUrls[i]
    requires forall i :: 0 <= i < |cssUrls| ==> '$' !in cssUrls[i]
    ensures MainPage(template, jsUrls, cssUrls) == MainPageIntended(template, jsUrls, cssUrls)
  {
    ScriptTextFree();
    ScriptTagsAvoid(jsUrls, '$');
    StylesheetTextFree();
    StylesheetTagsAvoid(cssUrls, '$');
    var js, css := ScriptTags(jsUrls), StylesheetTags(cssUrls);
    ReplaceFirstLiteralAgrees(template, JsPlaceholder, js);
    ReplaceFirstLiteralAgrees(ReplaceFirst(template, JsPlaceholder, js), CssPlaceholder, css);
  }

  /** The script tags of a single URL are its one tag. */
  lemma ScriptTagsSingle(u: string)
    ensures ScriptTags([u]) == ScriptTag(u)
  {
    assert ConcatTags(ScriptTag, [u]) == ScriptTag(u) + ConcatTags(ScriptTag, []);
  }

  /** `replace` turns the tag of a script URL `a$$b` into the tag of `a$b`. */
  lemma ScriptTagDollarDollar(a: string, b: string, before: string, after: string)
    requires '$' !in a && '$' !in b
    ensures Substitution(ScriptTag(a + "$$" + b), JsPlaceholder, before, after) == ScriptTag(a + "$" + b)
  {
    ScriptTextFree();
    assert ScriptTag(a + "$$" + b) == (ScriptOpen + a) + ['$', '$'] + (b + ScriptClose);
    SubstitutionOnePattern(ScriptOpen + a, '$', b + ScriptClose, JsPlaceholder, before, after);
    assert (ScriptOpen + a) + "$" + (b + ScriptClose) == ScriptTag(a + "$" + b);
  }

  /**
   * In a script URL `a$$b` the code collapses `$$` to `$`: the page refers
   * to `a$b`, whereas the intended page refers to `a$$b`.
   */
  lemma MainPageDollarUrl(pre: string, mid: string, post: string, a: string, b: string, cssUrls: seq<string>)
    requires '%' !in pre && '%' !in mid
    requires '%' !in a && '%' !in b && '$' !in a && '$' !in b
    requires forall i :: 0 <= i < |cssUrls| ==> '$' !in cssUrls[i]
    ensures var template := pre + JsPlaceholder + mid + CssPlaceholder + post;
      var css := StylesheetTags(cssUrls);
      MainPage(template, [a + "$$" + b], cssUrls) == pre + ScriptTag(a + "$" + b) + mid + css + post &&
      MainPageIntended(template, [a + "$$" + b], cssUrls) == pre + ScriptTag(a + "$$" + b) + mid + css + post
  {
    var u := a + "$$" + b;
    var css := StylesheetTags(cssUrls);
    var rest := mid + CssPlaceholder + post;
    ScriptTagsSingle(u);
    ScriptTagDollarDollar(a, b, pre, rest);
    var js := ScriptTag(a + "$" + b);
    assert pre + JsPlaceholder + mid + CssPlaceholder + post == pre + JsPlaceholder + rest;
    PercentFreeNoPlaceholder(pre);
    ReplaceFirstAfter(pre, JsPlaceholder, rest, ScriptTag(u));
    ScriptTagsSingle(a + "$" + b);
    ScriptTextFree();
    ScriptTagsAvoid([a + "$" + b], '%');
    assert pre + js + rest == (pre + js + mid) + CssPlaceholder + post;
    PercentFreeNoPlaceholder(pre + js + mid);
    ReplaceFirstAfter(pre + js + mid, CssPlaceholder, post, css);
    StylesheetTextFree();
    StylesheetTagsAvoid(cssUrls, '$');
    SubstitutionLiteral(css, CssPlaceholder, pre + js + mid, post);
    ScriptTagsAvoid([u], '%');
    PercentFreeNoPlaceholder(pre + ScriptTag(u) + mid);
    MainPageIntendedLayout(pre, mid, post, [u], cssUrls);
  }

  /** The template of `options`: `var project = %;`. */
  const OptionsPrefix := "var project = "
  const OptionsSuffix := ";"
  const OptionsTemplate := OptionsPrefix + ("%" + OptionsSuffix)

  /** The template's one `%` is the one after the prefix, and no other `%` comes before it. */
  lemma OptionsTemplateShape()
    ensures OptionsTemplate == OptionsPrefix + "%" + OptionsSuffix
    ensures NoMatchStartsIn(OptionsPrefix, "%")
  {
    FirstCharNotIn(OptionsPrefix, "%");
  }

  /**
   * The script `options` sends for a serialized project `json`, as the code
   * computes it: `json` with its `$`-patterns expanded, where the matched
   * text is `%`, the text before it the prefix and the text after it `;`.
   */
  function OptionsBody(json: string): (r: string)
    ensures r == OptionsPrefix + Substitution(json, "%", OptionsPrefix, OptionsSuffix) + OptionsSuffix
  {
    OptionsTemplateShape();
    ReplaceFirstAfter(OptionsPrefix, "%", OptionsSuffix, json);
    ReplaceFirst(OptionsTemplate, "%", json)
  }

  /** The options script with `json` inserted literally, as evidently intended. */
  function OptionsBodyIntended(json: string): (r: string)
    ensures r == OptionsPrefix + json + OptionsSuffix
  {
    OptionsTemplateShape();
    ReplaceFirstAfter(OptionsPrefix, "%", OptionsSuffix, json);
    ReplaceFirstLiteral(OptionsTemplate, "%", json)
  }

  /** For a serialization without `$` the code produces `var project = json;`. */
  lemma OptionsBodyWithoutDollar(json: string)
    requires '$' !in json
    ensures OptionsBody(json) == OptionsPrefix + json + OptionsSuffix
  {
    SubstitutionLiteral(json, "%", OptionsPrefix, OptionsSuffix);
  }

  /**
   * A serialization `a$&b` (a JSON string value holding `$&`) gets the
   * matched `%` in place of `$&`, where `a$&b` itself was intended.
   */
  lemma OptionsBodyDollarPattern(a: string, b: string)
    requires '$' !in a && '$' !in b
    ensures OptionsBody(a + "$&" + b) == OptionsPrefix + (a + "%" + b) + OptionsSuffix
    ensures OptionsBodyIntended(a + "$&" + b) == OptionsPrefix + (a + "$&" + b) + OptionsSuffix
  {
    assert a + "$&" + b == a + ['$', '&'] + b;
    SubstitutionOnePattern(a, '&', b, "%", OptionsPrefix, OptionsSuffix);
  }
}
