/** Rendering a value under a MIME filter. */
module Render {
  import opened Protocol

  datatype Mime = TextPlain | TextHtml | TextCsv | Json | Markdown | Svg | Other(name: string)

  /** What the `to ...` command of a type makes of the value; `None` when it does not apply or fails. */
  type Renderers = Mime -> Option<string>

  predicate MatchFilter(filter: Option<Mime>, mime: Mime) {
    filter.None? || filter == Some(mime)
  }

  /** `data` shows exactly those of the types `tried` that render and pass the filter; plain text always passes. */
  ghost predicate Shows(data: map<Mime, string>, tried: set<Mime>, filter: Option<Mime>, render: Renderers) {
    && (forall mime :: mime in data <==>
          mime in tried && render(mime).Some? && (mime.TextPlain? || filter.None? || filter == Some(mime)))
    && (forall mime :: mime in data ==> Some(data[mime]) == render(mime))
  }

  /** The entry of an optional type, where the filter lets it through. */
  method TryInsert(data: map<Mime, string>, filter: Option<Mime>, mime: Mime, render: Renderers,
      ghost tried: set<Mime>)
    returns (next: map<Mime, string>)
    requires Shows(data, tried, filter, render) && !mime.TextPlain?
    ensures Shows(next, tried + {mime}, filter, render)
  {
    next := data;
    if MatchFilter(filter, mime) {
      var s := render(mime);
      if s.Some? {
        next := next[mime := s.value];
      }
    }
  }

  /**
   * Plain text is shown whatever the filter says, and without it there is no result; of the other known types
   * exactly those are shown that render and that the filter lets through; no other type is.
   */
  method RenderValue(filter: Option<Mime>, render: Renderers) returns (r: Option<map<Mime, string>>)
    ensures r.Some? <==> render(TextPlain).Some?
    ensures r.Some? ==> Shows(r.value, {TextPlain, TextHtml, TextCsv, Json, Markdown, Svg}, filter, render)
  {
    var text := render(TextPlain);
    if text.None? {
      return None;
    }
    var data := map[TextPlain := text.value];
    data := TryInsert(data, filter, TextHtml, render, {TextPlain});
    data := TryInsert(data, filter, TextCsv, render, {TextPlain, TextHtml});
    data := TryInsert(data, filter, Json, render, {TextPlain, TextHtml, TextCsv});
    data := TryInsert(data, filter, Markdown, render, {TextPlain, TextHtml, TextCsv, Json});
    data := TryInsert(data, filter, Svg, render, {TextPlain, TextHtml, TextCsv, Json, Markdown});
    assert {TextPlain, TextHtml, TextCsv, Json, Markdown} + {Svg}
           == {TextPlain, TextHtml, TextCsv, Json, Markdown, Svg};
    return Some(data);
  }

  /** A filter for a type that nothing renders leaves the plain text and nothing else. */
  lemma UnknownFilterLeavesText(data: map<Mime, string>, filter: Mime, render: Renderers)
    requires filter.Other? && render(TextPlain).Some?
    requires Shows(data, {TextPlain, TextHtml, TextCsv, Json, Markdown, Svg}, Some(filter), render)
    ensures data == map[TextPlain := render(TextPlain).value]
  {
    assert forall mime :: mime in data ==> mime.TextPlain?;
    assert data.Keys == {TextPlain};
  }
}
