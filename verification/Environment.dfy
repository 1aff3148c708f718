/** The host environment as one source file of the engine, with a span into it for every variable. */
module Environment {
  import opened Protocol
  import Utf8

  datatype Span = Span(start: nat, end: nat)

  datatype Variable = Variable(name: string, value: string)

  /** How the engine's quoting (`{value:?}`) writes a value. */
  type Quote = string -> string

  function Line(v: Variable, quote: Quote): string {
    v.name + " = " + quote(v.value)
  }

  // ----- rows of bytes -----

  /** One line in bytes, without its line break: what precedes the value, and the quoted value. */
  datatype Row = Row(before: Bytes, quoted: Bytes)

  function RowBytes(r: Row): Bytes {
    r.before + r.quoted
  }

  /** The file made of these rows. */
  function Flat(rows: seq<Row>): Bytes {
    if rows == [] then [] else RowBytes(rows[0]) + [0x0A] + Flat(rows[1..])
  }

  function SpanAt(r: Row, offset: nat): Span {
    Span(offset + |r.before|, offset + |RowBytes(r)|)
  }

  /** The spans of the quoted values of rows that start at `offset`. */
  function Spans(rows: seq<Row>, offset: nat): (spans: seq<Span>)
    ensures |spans| == |rows|
    decreases |rows|
  {
    if rows == [] then []
    else [SpanAt(rows[0], offset)] + Spans(rows[1..], offset + |RowBytes(rows[0])| + 1)
  }

  /** In a text that starts at `offset`, the span lies inside the text and slices `r.quoted` out of it, behind
      `r.before` and in front of a line break. */
  predicate At(s: Span, offset: nat, text: Bytes, r: Row) {
    && offset + |r.before| <= s.start <= s.end < offset + |text|
    && text[s.start - offset - |r.before|..s.start - offset] == r.before
    && text[s.start - offset..s.end - offset] == r.quoted
    && text[s.end - offset] == 0x0A
  }

  lemma AtFirst(r: Row, offset: nat, rest: Bytes)
    ensures At(SpanAt(r, offset), offset, RowBytes(r) + [0x0A] + rest, r)
  {
  }

  lemma LaterSlice(row: Bytes, rest: Bytes, i: nat, j: nat)
    requires i <= j <= |rest|
    ensures (row + [0x0A] + rest)[|row| + 1 + i..|row| + 1 + j] == rest[i..j]
  {
  }

  lemma AtLater(s: Span, offset: nat, row: Bytes, rest: Bytes, r: Row)
    requires At(s, offset + |row| + 1, rest, r)
    ensures At(s, offset, row + [0x0A] + rest, r)
  {
    var next := offset + |row| + 1;
    LaterSlice(row, rest, s.start - next, s.end - next);
    LaterSlice(row, rest, s.start - next - |r.before|, s.start - next);
  }

  /** Wherever the rows are put, every span lies inside them and slices exactly its quoted value out. */
  lemma {:induction false} SpansSliceValues(rows: seq<Row>, offset: nat, i: nat)
    requires i < |rows|
    ensures At(Spans(rows, offset)[i], offset, Flat(rows), rows[i])
    decreases |rows|
  {
    var row, rest := RowBytes(rows[0]), Flat(rows[1..]);
    if i == 0 {
      AtFirst(rows[0], offset, rest);
    } else {
      var next := offset + |row| + 1;
      SpansSliceValues(rows[1..], next, i - 1);
      AtLater(Spans(rows[1..], next)[i - 1], offset, row, rest, rows[i]);
    }
  }

  /** Spans follow each other without touching. */
  lemma {:induction false} SpansIncrease(rows: seq<Row>, offset: nat, i: nat, j: nat)
    requires i < j < |rows|
    ensures Spans(rows, offset)[i].end < Spans(rows, offset)[j].start
    decreases |rows|
  {
    var next := offset + |RowBytes(rows[0])| + 1;
    if i > 0 {
      SpansIncrease(rows[1..], next, i - 1, j - 1);
    } else {
      SpansSliceValues(rows[1..], next, j - 1);
    }
  }

  lemma {:induction false} FlatSnoc(rows: seq<Row>, r: Row)
    ensures Flat(rows + [r]) == Flat(rows) + RowBytes(r) + [0x0A]
  {
    if rows == [] {
      assert rows + [r] == [r];
      assert Flat([r]) == RowBytes(r) + [0x0A] + Flat([]);
    } else {
      assert (rows + [r])[1..] == rows[1..] + [r];
      FlatSnoc(rows[1..], r);
    }
  }

  lemma {:induction false} SpansSnoc(rows: seq<Row>, r: Row, offset: nat)
    ensures Spans(rows + [r], offset) == Spans(rows, offset) + [SpanAt(r, offset + |Flat(rows)|)]
    decreases |rows|
  {
    if rows == [] {
      assert rows + [r] == [r];
    } else {
      assert (rows + [r])[1..] == rows[1..] + [r];
      SpansSnoc(rows[1..], r, offset + |RowBytes(rows[0])| + 1);
    }
  }

  // ----- rows of variables -----

  function RowOf(v: Variable, quote: Quote): Row {
    Row(Utf8.Encode(v.name) + EQUALS, Utf8.Encode(quote(v.value)))
  }

  /** ` = ` in bytes. */
  const EQUALS: Bytes := [0x20, 0x3D, 0x20]

  lemma {:induction false} EncodeConcat(a: string, b: string)
    ensures Utf8.Encode(a + b) == Utf8.Encode(a) + Utf8.Encode(b)
  {
    if a == [] {
      assert a + b == b;
    } else {
      assert (a + b)[1..] == a[1..] + b;
      EncodeConcat(a[1..], b);
    }
  }

  lemma EncodeEquals()
    ensures Utf8.Encode(" = ") == EQUALS
  {
    Utf8.EncodeCons(' ', "= ");
    Utf8.EncodeCons('=', " ");
    Utf8.EncodeCons(' ', "");
    assert [' '] + "= " == " = " && ['='] + " " == "= " && [' '] + "" == " ";
  }

  /** A line is encoded as its row. */
  lemma EncodeLine(v: Variable, quote: Quote)
    ensures Utf8.Encode(Line(v, quote)) == RowBytes(RowOf(v, quote))
  {
    EncodeConcat(v.name + " = ", quote(v.value));
    EncodeConcat(v.name, " = ");
    EncodeEquals();
  }

  lemma EncodeAppended(text: string, line: string)
    ensures Utf8.Encode(text + line + "\n") == Utf8.Encode(text) + Utf8.Encode(line) + [0x0A]
  {
    EncodeConcat(text + line, "\n");
    EncodeConcat(text, line);
    Utf8.EncodeCons('\n', "");
    assert ['\n'] + "" == "\n";
  }

  // ----- the engine -----

  datatype File = File(name: string, covered: Span)

  datatype EnvValue = EnvValue(value: string, span: Span)

  datatype Entry = Entry(name: string, value: EnvValue)

  /** The entry of `v` has its own name and value and the span of its row. */
  predicate Fits(e: Entry, v: Variable, span: Span) {
    e == Entry(v.name, EnvValue(v.value, span))
  }

  /** `order` lists once every variable of `env` that is not in `rest`. */
  ghost predicate Listed(order: seq<Variable>, env: map<string, string>, rest: map<string, string>) {
    && (forall n :: n in rest ==> n in env && rest[n] == env[n])
    && (forall v :: v in order ==> v.name in env && v.value == env[v.name] && v.name !in rest)
    && (forall n :: n in env && n !in rest ==> Variable(n, env[n]) in order)
    && (forall i, j :: 0 <= i < j < |order| ==> order[i].name != order[j].name)
  }

  lemma ListOne(order: seq<Variable>, env: map<string, string>, rest: map<string, string>, v: Variable)
    requires Listed(order, env, rest) && v.name in rest && v.value == rest[v.name]
    ensures Listed(order + [v], env, rest - {v.name})
  {
    var next := order + [v];
    forall n | n in env && n !in rest - {v.name} ensures Variable(n, env[n]) in next {
      if n == v.name {
        assert next[|order|] == Variable(n, env[n]);
      } else {
        assert Variable(n, env[n]) in order;
      }
    }
  }

  ghost predicate RowsFit(rows: seq<Row>, order: seq<Variable>, quote: Quote) {
    |rows| == |order| && forall i :: 0 <= i < |rows| ==> rows[i] == RowOf(order[i], quote)
  }

  ghost predicate EntriesFit(values: seq<Entry>, order: seq<Variable>, spans: seq<Span>) {
    && |values| == |order| == |spans|
    && forall i :: 0 <= i < |values| ==> Fits(values[i], order[i], spans[i])
  }

  /** A variable of the process, or the one that holds the current directory. */
  predicate IsGiven(n: string, vars: map<string, string>, currentDir: Option<string>) {
    n in vars || (n == "PWD" && currentDir.Some?)
  }

  function Rebase(s: Span, offset: nat): Span {
    Span(s.start + offset, s.end + offset)
  }

  predicate Apart(s: Span, t: Span) {
    s.end < t.start || t.end < s.start
  }

  /** `span` lies in the part of the source from `start` on and slices `quoted` out of it, behind `before` and in front
      of a line break. */
  predicate Slices(span: Span, start: nat, source: Bytes, before: Bytes, quoted: Bytes) {
    && start + |before| <= span.start <= span.end < |source|
    && source[span.start - |before|..span.start] == before
    && source[span.start..span.end] == quoted
    && source[span.end] == 0x0A
  }

  lemma MovedSlice(earlier: Bytes, text: Bytes, s: Span, r: Row)
    requires At(s, 0, text, r)
    ensures Slices(Rebase(s, |earlier|), |earlier|, earlier + text, r.before, r.quoted)
  {
    assert (earlier + text)[s.start + |earlier|..s.end + |earlier|] == text[s.start..s.end];
    assert (earlier + text)[s.start + |earlier| - |r.before|..s.start + |earlier|] == text[s.start - |r.before|..s.start];
  }

  /** Moving rows behind earlier sources, and their spans with them, leaves every slice the same. */
  lemma RebasedSlices(rows: seq<Row>, i: nat, earlier: Bytes)
    requires i < |rows|
    ensures Slices(Rebase(Spans(rows, 0)[i], |earlier|), |earlier|, earlier + Flat(rows),
                   rows[i].before, rows[i].quoted)
  {
    SpansSliceValues(rows, 0, i);
    MovedSlice(earlier, Flat(rows), Spans(rows, 0)[i], rows[i]);
  }

  lemma WriteOne(values: seq<Entry>, order: seq<Variable>, rows: seq<Row>, quote: Quote, v: Variable, e: Entry)
    requires RowsFit(rows, order, quote) && EntriesFit(values, order, Spans(rows, 0))
    requires Fits(e, v, SpanAt(RowOf(v, quote), |Flat(rows)|))
    ensures RowsFit(rows + [RowOf(v, quote)], order + [v], quote)
    ensures EntriesFit(values + [e], order + [v], Spans(rows + [RowOf(v, quote)], 0))
  {
    SpansSnoc(rows, RowOf(v, quote), 0);
  }

  lemma AppendLine(toml: string, rows: seq<Row>, v: Variable, quote: Quote)
    requires Utf8.Encode(toml) == Flat(rows)
    ensures Utf8.Encode(toml + Line(v, quote) + "\n") == Flat(rows + [RowOf(v, quote)])
    ensures |Flat(rows + [RowOf(v, quote)])| == |Flat(rows)| + |Utf8.Encode(Line(v, quote))| + 1
  {
    EncodeLine(v, quote);
    EncodeAppended(toml, Line(v, quote));
    FlatSnoc(rows, RowOf(v, quote));
  }

  /** `start` and `end` as the source computes them are the row's span. */
  lemma SpanOfLine(v: Variable, quote: Quote, lineOffset: nat)
    ensures Span(|Utf8.Encode(v.name)| + |Utf8.Encode(" = ")| + lineOffset,
                 lineOffset + |Utf8.Encode(Line(v, quote))|)
            == SpanAt(RowOf(v, quote), lineOffset)
  {
    EncodeLine(v, quote);
    EncodeEquals();
  }

  /** What has been written when `rest` is still to come. */
  ghost predicate Written(toml: string, lineOffset: nat, values: seq<Entry>, order: seq<Variable>, rows: seq<Row>,
      env: map<string, string>, rest: map<string, string>, quote: Quote) {
    && Listed(order, env, rest) && RowsFit(rows, order, quote)
    && Utf8.Encode(toml) == Flat(rows) && lineOffset == |Flat(rows)|
    && EntriesFit(values, order, Spans(rows, 0))
  }

  /** Writing the line of one more variable. */
  lemma WriteLine(toml: string, lineOffset: nat, values: seq<Entry>, order: seq<Variable>, rows: seq<Row>,
      env: map<string, string>, rest: map<string, string>, quote: Quote, v: Variable, e: Entry)
    requires Written(toml, lineOffset, values, order, rows, env, rest, quote)
    requires v.name in rest && v.value == rest[v.name]
    requires Fits(e, v, Span(|Utf8.Encode(v.name)| + |Utf8.Encode(" = ")| + lineOffset,
                             lineOffset + |Utf8.Encode(Line(v, quote))|))
    ensures Written(toml + Line(v, quote) + "\n", lineOffset + |Utf8.Encode(Line(v, quote))| + 1,
                    values + [e], order + [v], rows + [RowOf(v, quote)], env, rest - {v.name}, quote)
  {
    SpanOfLine(v, quote, lineOffset);
    ListOne(order, env, rest, v);
    AppendLine(toml, rows, v, quote);
    WriteOne(values, order, rows, quote, v, e);
  }

  /** The lines of all variables, in whatever order the map yields them. */
  method WriteLines(env: map<string, string>, quote: Quote)
    returns (toml: string, values: seq<Entry>, ghost order: seq<Variable>, ghost rows: seq<Row>)
    ensures Written(toml, |Utf8.Encode(toml)|, values, order, rows, env, map[], quote)
  {
    toml, values, order, rows := "", [], [], [];
    var lineOffset: nat := 0;
    var rest := env;
    while rest != map[]
      invariant Written(toml, lineOffset, values, order, rows, env, rest, quote)
      decreases rest.Keys
    {
      var name :| name in rest;
      var v := Variable(name, rest[name]);
      var line := Line(v, quote);
      var start := |Utf8.Encode(name)| + |Utf8.Encode(" = ")| + lineOffset;
      var end := lineOffset + |Utf8.Encode(line)|;
      var e := Entry(name, EnvValue(v.value, Span(start, end)));
      WriteLine(toml, lineOffset, values, order, rows, env, rest, quote, v, e);
      lineOffset := lineOffset + |Utf8.Encode(line)| + 1;
      toml := toml + line + "\n";
      values := values + [e];
      order, rows := order + [v], rows + [RowOf(v, quote)];
      rest := rest - {name};
    }
  }

  /** The part of the engine state that keeps source texts, one after another, and environment variables. */
  class Engine {
    var source: Bytes
    var files: seq<File>
    var envVars: map<string, EnvValue>

    constructor ()
      ensures source == [] && files == [] && envVars == map[]
    {
      source, files, envVars := [], [], map[];
    }

    method AddFile(name: string, contents: Bytes)
      modifies this
      ensures source == old(source) + contents
      ensures files == old(files) + [File(name, Span(|old(source)|, |source|))]
      ensures envVars == old(envVars)
    {
      files := files + [File(name, Span(|source|, |source| + |contents|))];
      source := source + contents;
    }

    method AddEnvVar(name: string, value: EnvValue)
      modifies this`envVars
      ensures envVars == old(envVars)[name := value]
    {
      envVars := envVars[name := value];
    }

    /** Sets every variable to its value with its span moved by `offset`, and no other. */
    method AddEnvVars(values: seq<Entry>, offset: nat)
      requires forall i, j :: 0 <= i < j < |values| ==> values[i].name != values[j].name
      modifies this`envVars
      ensures forall e :: e in values ==>
                e.name in envVars && envVars[e.name] == EnvValue(e.value.value, Rebase(e.value.span, offset))
      ensures forall n :: (forall e :: e in values ==> e.name != n) ==>
                (n in envVars <==> n in old(envVars)) && (n in envVars ==> envVars[n] == old(envVars[n]))
    {
      for i := 0 to |values|
        invariant forall j :: 0 <= j < i ==>
                    && values[j].name in envVars
                    && envVars[values[j].name]
                       == EnvValue(values[j].value.value, Rebase(values[j].value.span, offset))
        invariant forall n :: (forall e :: e in values ==> e.name != n) ==>
                    (n in envVars <==> n in old(envVars)) && (n in envVars ==> envVars[n] == old(envVars[n]))
      {
        var e := values[i];
        AddEnvVar(e.name, EnvValue(e.value.value, Rebase(e.value.span, offset)));
      }
    }

    /** Adds a file with a line for every variable, and sets every variable with a span into it. */
    method AddVariables(env: map<string, string>, quote: Quote)
      modifies this
      ensures old(source) <= source
      ensures files == old(files) + [File("Host Environment Variables", Span(|old(source)|, |source|))]
      ensures forall n :: n in env ==>
                && n in envVars && envVars[n].value == env[n]
                && Slices(envVars[n].span, |old(source)|, source, Utf8.Encode(n + " = "), Utf8.Encode(quote(env[n])))
      ensures forall m, n :: m in env && n in env && m != n ==>
                m in envVars && n in envVars && Apart(envVars[m].span, envVars[n].span)
      ensures forall n :: n !in env ==>
                (n in envVars <==> n in old(envVars)) && (n in envVars ==> envVars[n] == old(envVars[n]))
    {
      ghost var order, rows;
      var toml, values;
      toml, values, order, rows := WriteLines(env, quote);
      var spanOffset := |source|;
      AddFile("Host Environment Variables", Utf8.Encode(toml));
      AddEnvVars(values, spanOffset);
      forall n | n in env
        ensures n in envVars && envVars[n].value == env[n]
        ensures Slices(envVars[n].span, spanOffset, source, Utf8.Encode(n + " = "), Utf8.Encode(quote(env[n])))
      {
        ghost var i := EntryOf(values, order, rows, quote, env, n);
        RebasedSlices(rows, i, old(source));
      }
      forall m, n | m in env && n in env && m != n
        ensures Apart(envVars[m].span, envVars[n].span)
      {
        ghost var i := EntryOf(values, order, rows, quote, env, m);
        ghost var j := EntryOf(values, order, rows, quote, env, n);
        SpansApart(rows, i, j);
      }
    }

    /**
     * Adds the environment, with the current directory as `PWD`: every variable is set, its line in the new
     * file is `name = quoted value`, and its span slices the quoted value, apart from other spans.
     */
    method AddEnvContext(vars: map<string, string>, currentDir: Option<string>, quote: Quote)
      modifies this
      ensures old(source) <= source
      ensures files == old(files) + [File("Host Environment Variables", Span(|old(source)|, |source|))]
      ensures currentDir.Some? ==> "PWD" in envVars && envVars["PWD"].value == currentDir.value
      ensures forall n :: n in vars && (currentDir.Some? ==> n != "PWD") ==> n in envVars && envVars[n].value == vars[n]
      ensures forall n :: n !in vars && (currentDir.Some? ==> n != "PWD") ==>
                (n in envVars <==> n in old(envVars)) && (n in envVars ==> envVars[n] == old(envVars[n]))
      ensures forall n :: IsGiven(n, vars, currentDir) ==>
                && n in envVars
                && Slices(envVars[n].span, |old(source)|, source,
                          Utf8.Encode(n + " = "), Utf8.Encode(quote(envVars[n].value)))
      ensures forall m, n :: IsGiven(m, vars, currentDir) && IsGiven(n, vars, currentDir) && m != n ==>
                m in envVars && n in envVars && Apart(envVars[m].span, envVars[n].span)
    {
      var env := if currentDir.Some? then vars["PWD" := currentDir.value] else vars;
      AddVariables(env, quote);
    }
  }

  lemma EntryOf(values: seq<Entry>, order: seq<Variable>, rows: seq<Row>, quote: Quote,
      env: map<string, string>, n: string) returns (i: nat)
    requires Listed(order, env, map[]) && RowsFit(rows, order, quote) && n in env
    requires EntriesFit(values, order, Spans(rows, 0))
    ensures i < |rows| && values[i] == Entry(n, EnvValue(env[n], Spans(rows, 0)[i]))
    ensures values[i] in values && order[i].name == n
    ensures rows[i].before == Utf8.Encode(n + " = ") && rows[i].quoted == Utf8.Encode(quote(env[n]))
  {
    EncodeConcat(n, " = ");
    EncodeEquals();
    assert Variable(n, env[n]) in order;
    i :| 0 <= i < |order| && order[i] == Variable(n, env[n]);
    assert Fits(values[i], order[i], Spans(rows, 0)[i]);
  }

  lemma SpansApart(rows: seq<Row>, i: nat, j: nat)
    requires i < |rows| && j < |rows| && i != j
    ensures Apart(Spans(rows, 0)[i], Spans(rows, 0)[j])
  {
    if i < j {
      SpansIncrease(rows, 0, i, j);
    } else {
      SpansIncrease(rows, 0, j, i);
    }
  }
}
