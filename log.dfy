/** The parts of the logging layer with behaviour of their own: framing of
    text blobs, the header and footer a `BlobLogger` writes around output,
    the merge of adapter extras into a call's `extra`, the log-line template
    with its contexts ordered by priority, and the sequence of blocks an
    exception chain is rendered into. Handlers, clocks and the template
    engine are outside: a log is a sequence of messages, the time stamp is
    an input, and rendering one exception block is a function given from
    outside. */
module Log {
  import opened Common
  import opened Text

  const BlobHeader: string := "---v---v---v---v---v---"
  const BlobFooter: string := "---^---^---^---^---^---"

  // ---------------------------------------------------------------------
  // Writers, log_blob and BlobLogger
  // ---------------------------------------------------------------------

  /** Where a writer's messages go: the messages logged so far, in order. */
  class Sink {
    var messages: seq<string>

    constructor ()
      ensures messages == []
    {
      messages := [];
    }

    /** One call of the writer. */
    method Write(message: string)
      modifies this
      ensures messages == old(messages) + [message]
    {
      messages := messages + [message];
    }
  }

  /** The message `log_blob` hands to its writer: the intro and a colon on
      the first line, then the header, the blob and the footer, each on a
      line of its own. The blob can be cut back out of the message. */
  function LogBlob(intro: string, blob: string): (r: string)
    ensures StartsWith(r, intro + ":\n" + BlobHeader + "\n")
    ensures EndsWith(r, "\n" + BlobFooter)
    ensures |r| == |intro| + |blob| + 50 && r[|intro| + 26..|r| - 24] == blob
  {
    var prefix := intro + ":\n" + BlobHeader + "\n";
    var suffix := "\n" + BlobFooter;
    var r := prefix + blob + suffix;
    assert |prefix| == |intro| + 26 && |suffix| == 24;
    assert r[..|prefix|] == prefix;
    assert r[|r| - |suffix|..] == suffix;
    assert r[|prefix|..|r| - |suffix|] == blob;
    r
  }

  /** Two blobs logged under the same intro give the same message only
      when they are the same blob. */
  lemma LogBlobInjective(intro: string, a: string, b: string)
    ensures LogBlob(intro, a) == LogBlob(intro, b) <==> a == b
  {
    if LogBlob(intro, a) == LogBlob(intro, b) {
      var m := LogBlob(intro, a);
      assert a == m[|intro| + 26..|m| - 24] == b;
    }
  }

  /** `log_blob(writer, intro, blob)`. */
  method WriteBlob(sink: Sink, intro: string, blob: string)
    modifies sink
    ensures sink.messages == old(sink.messages) + [LogBlob(intro, blob)]
  {
    sink.Write(LogBlob(intro, blob));
  }

  /** How the `with` block ended, as `__exit__` is told. */
  datatype Exit = Normal | Raised(error: Error)

  /** A context manager that frames output produced while it is active. */
  class BlobLogger {
    const sink: Sink
    const intro: string
    const outro: Option<string>
    const onFinally: Option<Exit -> bool>

    constructor (sink: Sink, intro: string, outro: Option<string>, onFinally: Option<Exit -> bool>)
      ensures this.sink == sink && this.intro == intro && this.outro == outro && this.onFinally == onFinally
    {
      this.sink := sink;
      this.intro := intro;
      this.outro := outro;
      this.onFinally := onFinally;
    }

    /** The header line: the header, a space and the intro. */
    function HeaderLine(): string
    {
      BlobHeader + " " + intro
    }

    /** The footer line: the footer, a space and the outro, or nothing for
        a missing outro. */
    function FooterLine(): string
    {
      BlobFooter + " " + (if outro.Some? then outro.value else "")
    }

    /** `__enter__`. */
    method Enter()
      modifies sink
      ensures sink.messages == old(sink.messages) + [HeaderLine()]
    {
      sink.Write(HeaderLine());
    }

    /** `__exit__`: the footer line is written whatever happened, and the
        answer is `on_finally`'s, or none without it. */
    method Exit(how: Exit) returns (r: Option<bool>)
      modifies sink
      ensures sink.messages == old(sink.messages) + [FooterLine()]
      ensures r == (if onFinally.Some? then Some(onFinally.value(how)) else None)
    {
      sink.Write(FooterLine());
      if onFinally.Some? {
        r := Some(onFinally.value(how));
      } else {
        r := None;
      }
    }
  }

  /** The two boundary lines can never be mistaken for one another: they
      differ in their fourth character. */
  lemma BoundariesDiffer(b: BlobLogger)
    ensures b.HeaderLine() != b.FooterLine()
    ensures StartsWith(b.HeaderLine(), BlobHeader) && StartsWith(b.FooterLine(), BlobFooter)
  {
    assert b.HeaderLine()[3] == BlobHeader[3] == 'v';
    assert b.FooterLine()[3] == BlobFooter[3] == '^';
    assert b.HeaderLine()[..23] == BlobHeader;
    assert b.FooterLine()[..23] == BlobFooter;
  }

  /** A `with BlobLogger(...)` block during which `output` is written: the
      output appears between exactly one header line and one footer
      line. */
  method Framed(b: BlobLogger, output: seq<string>, how: Exit) returns (r: Option<bool>)
    modifies b.sink
    ensures b.sink.messages == old(b.sink.messages) + [b.HeaderLine()] + output + [b.FooterLine()]
  {
    b.Enter();
    var i := 0;
    while i < |output|
      invariant 0 <= i <= |output|
      invariant b.sink.messages == old(b.sink.messages) + [b.HeaderLine()] + output[..i]
    {
      b.sink.Write(output[i]);
      assert output[..i + 1] == output[..i] + [output[i]];
      i := i + 1;
    }
    assert output[..i] == output;
    r := b.Exit(how);
  }

  // ---------------------------------------------------------------------
  // ContextAdapter.process and ModuleAdapter
  // ---------------------------------------------------------------------

  /** A value in `extra`: a context (a priority and a text) or anything
      else. */
  datatype Extra = Context(priority: int, value: string) | Plain(text: string)

  /** The keyword arguments of one logging call, as far as `extra` goes. */
  class Kwargs {
    var extra: Option<map<string, Extra>>

    constructor (extra: Option<map<string, Extra>>)
      ensures this.extra == extra
    {
      this.extra := extra;
    }
  }

  /** The call's `extra` (empty when absent) updated with the adapter's. */
  function Merged(extra: Option<map<string, Extra>>, adapter: map<string, Extra>): (r: map<string, Extra>)
    ensures r.Keys == (if extra.Some? then extra.value.Keys else {}) + adapter.Keys
    ensures forall k :: k in adapter ==> r[k] == adapter[k]
    ensures forall k :: extra.Some? && k in extra.value && k !in adapter ==> r[k] == extra.value[k]
  {
    (if extra.Some? then extra.value else map[]) + adapter
  }

  /** Passing a call through two adapters in turn is one merge with their
      extras combined, the second adapter's keys winning. */
  lemma MergedChain(extra: Option<map<string, Extra>>, first: map<string, Extra>, second: map<string, Extra>)
    ensures Merged(Some(Merged(extra, first)), second) == Merged(extra, first + second)
  {
  }

  /** A logger adapter carrying extras that every call passing through it
      receives. */
  class ContextAdapter {
    const extra: map<string, Extra>

    /** `ContextAdapter(logger, extra)`: a missing `extra` is empty. */
    constructor (extra: Option<map<string, Extra>>)
      ensures this.extra == (if extra.Some? then extra.value else map[])
    {
      this.extra := if extra.Some? then extra.value else map[];
    }

    /** `ModuleAdapter(logger, module)`: one context, the module's name at
        priority 10. */
    constructor Module(name: string)
      ensures extra == map["ctx_module_name" := Context(10, name)]
    {
      extra := map["ctx_module_name" := Context(10, name)];
    }

    /** `process`: `extra` is created when the call has none and updated
        with the adapter's extras; the message passes unchanged. */
    method Process(msg: string, kwargs: Kwargs) returns (m: string)
      modifies kwargs
      ensures m == msg
      ensures kwargs.extra == Some(Merged(old(kwargs.extra), extra))
    {
      if kwargs.extra.None? {
        kwargs.extra := Some(map[]);
      }
      kwargs.extra := Some(kwargs.extra.value + extra);
      m := msg;
    }
  }

  /** A call through an adapter wrapped around another: the inner adapter
      processes last, so its keys win over the outer's and the call's. */
  method ProcessBoth(outer: ContextAdapter, inner: ContextAdapter, msg: string, kwargs: Kwargs) returns (m: string)
    modifies kwargs
    ensures m == msg
    ensures kwargs.extra == Some(Merged(old(kwargs.extra), outer.extra + inner.extra))
  {
    m := outer.Process(msg, kwargs);
    m := inner.Process(m, kwargs);
    MergedChain(old(kwargs.extra), outer.extra, inner.extra);
  }

  // ---------------------------------------------------------------------
  // The exception chain
  // ---------------------------------------------------------------------

  /** An exception as the formatter sees it, with the link to the
      exception it was caused by. */
  datatype Exception = Exception(name: string, message: string, trace: string, causedBy: Option<nat>)

  /** Following `n` links from `id` reaches an exception with no cause. */
  predicate EndsAfter(excs: map<nat, Exception>, id: nat, n: nat)
    decreases n
  {
    id in excs &&
    if n == 0 then excs[id].causedBy.None?
    else excs[id].causedBy.Some? && EndsAfter(excs, excs[id].causedBy.value, n - 1)
  }

  /** A chain ends after one number of links only. */
  lemma {:induction false} EndsAfterUnique(excs: map<nat, Exception>, id: nat, n: nat, m: nat)
    requires EndsAfter(excs, id, n) && EndsAfter(excs, id, m)
    ensures n == m
    decreases n
  {
    if n > 0 && m > 0 {
      EndsAfterUnique(excs, excs[id].causedBy.value, n - 1, m - 1);
    }
  }

  /** Where `k` links from `id` lead, if they all exist. */
  function Follow(excs: map<nat, Exception>, id: nat, k: nat): Option<nat>
    decreases k
  {
    if k == 0 then Some(id)
    else if id in excs && excs[id].causedBy.Some? then Follow(excs, excs[id].causedBy.value, k - 1)
    else None
  }

  /** A chain that ends after `n` links can be followed for at most `n`
      links, and what is left of it then ends. */
  lemma {:induction false} FollowEnds(excs: map<nat, Exception>, id: nat, n: nat, k: nat, target: nat)
    requires EndsAfter(excs, id, n) && Follow(excs, id, k) == Some(target)
    ensures k <= n && EndsAfter(excs, target, n - k)
    decreases k
  {
    if k > 0 {
      FollowEnds(excs, excs[id].causedBy.value, n - 1, k - 1, target);
    }
  }

  /** An exception that leads back to itself starts a chain that never
      ends: the formatter's walk along it does not stop. */
  lemma {:induction false} CycleNeverEnds(excs: map<nat, Exception>, id: nat, k: nat, n: nat)
    requires k > 0 && Follow(excs, id, k) == Some(id)
    ensures !EndsAfter(excs, id, n)
    decreases n
  {
    if EndsAfter(excs, id, n) {
      FollowEnds(excs, id, n, k, id);
      CycleNeverEnds(excs, id, k, n - k);
    }
  }

  /** The rendered blocks from `id` on: the first with `heading`, every later
      one labelled "Caused by". */
  function Blocks(excs: map<nat, Exception>, id: nat, n: nat, render: (string, Exception) -> string, heading: string): (r: seq<string>)
    requires EndsAfter(excs, id, n)
    ensures |r| == n + 1 && r[0] == render(heading, excs[id])
    decreases n, 1
  {
    [render(heading, excs[id])] + Tail(excs, id, n, render)
  }

  /** The blocks for the causes of `id`. */
  function Tail(excs: map<nat, Exception>, id: nat, n: nat, render: (string, Exception) -> string): (r: seq<string>)
    requires EndsAfter(excs, id, n)
    ensures |r| == n
    decreases n, 0
  {
    if n == 0 then [] else Blocks(excs, excs[id].causedBy.value, n - 1, render, "Caused by")
  }

  /** Every block after the first is a "Caused by" block, and block `k`
      renders the exception `k` links down the chain. */
  lemma {:induction false} BlocksLabels(excs: map<nat, Exception>, id: nat, n: nat, render: (string, Exception) -> string, heading: string, k: nat)
    requires EndsAfter(excs, id, n) && k <= n
    ensures Follow(excs, id, k).Some? && Follow(excs, id, k).value in excs
    ensures Blocks(excs, id, n, render, heading)[k] ==
              render(if k == 0 then heading else "Caused by", excs[Follow(excs, id, k).value])
    decreases k
  {
    if k > 0 {
      BlocksLabels(excs, excs[id].causedBy.value, n - 1, render, "Caused by", k - 1);
    }
  }

  /** `_format_exception_chain`: an empty first line, the "Exception"
      block, and one "Caused by" block per link, joined by newlines. */
  method FormatExceptionChain(excs: map<nat, Exception>, start: nat, render: (string, Exception) -> string) returns (text: string)
    requires exists n: nat :: EndsAfter(excs, start, n)
    ensures forall n: nat :: EndsAfter(excs, start, n) ==> text == Join([""] + Blocks(excs, start, n, render, "Exception"), '\n')
  {
    ghost var n: nat :| EndsAfter(excs, start, n);
    var output := [""];
    var current := start;
    output := output + [render("Exception", excs[current])];
    ghost var i := 0;
    while excs[current].causedBy.Some?
      invariant i <= n && EndsAfter(excs, current, n - i)
      invariant [""] + Blocks(excs, start, n, render, "Exception") == output + Tail(excs, current, n - i, render)
      decreases n - i
    {
      current := excs[current].causedBy.value;
      output := output + [render("Caused by", excs[current])];
      i := i + 1;
    }
    assert n - i == 0;
    assert output == [""] + Blocks(excs, start, n, render, "Exception");
    text := Join(output, '\n');
    forall m: nat | EndsAfter(excs, start, m)
      ensures text == Join([""] + Blocks(excs, start, m, render, "Exception"), '\n')
    {
      EndsAfterUnique(excs, start, m, n);
    }
  }

  /** The text of an exception chain that ends. */
  ghost function ExceptionText(excs: map<nat, Exception>, start: nat, render: (string, Exception) -> string): string
    requires exists n: nat :: EndsAfter(excs, start, n)
  {
    var n: nat :| EndsAfter(excs, start, n);
    Join([""] + Blocks(excs, start, n, render, "Exception"), '\n')
  }

  // ---------------------------------------------------------------------
  // LoggingFormatter.format
  // ---------------------------------------------------------------------

  const LevelDebug: int := 10
  const LevelInfo: int := 20
  const LevelWarning: int := 30
  const LevelError: int := 40
  const LevelCritical: int := 50

  /** The tag shown for each level. */
  const LevelTags: map<int, string> := map[LevelDebug := "D", LevelInfo := "+", LevelWarning := "W", LevelError := "E", LevelCritical := "C"]

  /** The colour table as written: it has no entry for DEBUG. */
  const LevelColoursAsWritten: map<int, string> := map[LevelInfo := "green", LevelWarning := "yellow", LevelError := "red", LevelCritical := "red"]

  /** The colour lookup as written: a level without an entry raises. */
  function ColourAsWritten(level: int): (r: Result<string>)
  {
    if level in LevelColoursAsWritten then Ok(LevelColoursAsWritten[level]) else Err(LevelKeyError(level))
  }

  /** The lookup as written fails on a DEBUG record even though DEBUG has
      a tag: formatting any DEBUG record raises at its last step. */
  lemma DebugRecordFails()
    ensures LevelDebug in LevelTags
    ensures ColourAsWritten(LevelDebug) == Err(LevelKeyError(LevelDebug))
  {
  }

  /** The colour lookup as evidently intended: every tagged level formats;
      DEBUG records are left without colour. */
  function Colour(level: int): (r: Option<string>)
  {
    if level in LevelColoursAsWritten then Some(LevelColoursAsWritten[level]) else None
  }

  /** The corrected lookup agrees with the table wherever the table has an
      entry, and DEBUG is the one tagged level it leaves plain. */
  lemma ColourCorrected(level: int)
    requires level in LevelTags
    ensures ColourAsWritten(level).Ok? ==> Colour(level) == Some(ColourAsWritten(level).value)
    ensures ColourAsWritten(level).Err? <==> level == LevelDebug
    ensures level == LevelDebug ==> Colour(level) == None
  {
  }

  /** A `ctx_` attribute of a record: its name and its (priority, value)
      pair. */
  datatype Ctx = Ctx(name: string, priority: int, value: string)

  /** What `format` reads from a record. The contexts are the record's
      `ctx_` attributes in the order `dir` lists them. */
  datatype Record = Record(level: int, stamp: string, msg: string, excInfo: Option<nat>, contexts: seq<Ctx>)

  /** The placeholders of the template. */
  datatype Field = StampField | LevelField | MsgField | ExcField | CtxField(name: string)

  /** The formatted line and the colour it is styled with. */
  datatype Line = Line(text: string, colour: Option<string>)

  /** `c` inserted into a list ordered by descending priority, after every
      element of higher priority and before the rest. */
  function InsertDesc(c: Ctx, s: seq<Ctx>): (r: seq<Ctx>)
    ensures multiset(r) == multiset(s) + multiset{c} && |r| == |s| + 1
  {
    if s == [] || s[0].priority <= c.priority then [c] + s
    else
      assert s == [s[0]] + s[1..];
      [s[0]] + InsertDesc(c, s[1..])
  }

  /** `sorted(contexts, key=priority, reverse=True)`: a stable sort by
      descending priority. */
  function SortDesc(s: seq<Ctx>): (r: seq<Ctx>)
    ensures multiset(r) == multiset(s) && |r| == |s|
  {
    if s == [] then []
    else
      assert s == [s[0]] + s[1..];
      InsertDesc(s[0], SortDesc(s[1..]))
  }

  predicate Descending(s: seq<Ctx>)
  {
    forall i, j :: 0 <= i < j < |s| ==> s[i].priority >= s[j].priority
  }

  lemma {:induction false} InsertDescKeepsOrder(c: Ctx, s: seq<Ctx>)
    requires Descending(s)
    ensures Descending(InsertDesc(c, s))
  {
    var r := InsertDesc(c, s);
    if s == [] || s[0].priority <= c.priority {
      assert r == [c] + s;
      forall i, j | 0 <= i < j < |r|
        ensures r[i].priority >= r[j].priority
      {
        assert r[j] == s[j - 1];
        if i > 0 {
          assert r[i] == s[i - 1];
        }
      }
    } else {
      var t := s[1..];
      assert Descending(t) by {
        forall i, j | 0 <= i < j < |t|
          ensures t[i].priority >= t[j].priority
        {
          assert t[i] == s[i + 1] && t[j] == s[j + 1];
        }
      }
      InsertDescKeepsOrder(c, t);
      var rest := InsertDesc(c, t);
      assert r == [s[0]] + rest;
      assert rest[0].priority <= s[0].priority by {
        if t != [] && t[0].priority > c.priority {
          assert rest[0] == t[0] == s[1];
        }
      }
      forall i, j | 0 <= i < j < |r|
        ensures r[i].priority >= r[j].priority
      {
        assert r[j] == rest[j - 1];
        if i > 0 {
          assert r[i] == rest[i - 1];
        } else if j > 1 {
          assert rest[0].priority >= rest[j - 1].priority;
        }
      }
    }
  }

  /** The sort yields descending priorities. */
  lemma {:induction false} SortDescSorted(s: seq<Ctx>)
    ensures Descending(SortDesc(s))
  {
    if s != [] {
      SortDescSorted(s[1..]);
      InsertDescKeepsOrder(s[0], SortDesc(s[1..]));
    }
  }

  /** `s` backwards. */
  function Reverse(s: seq<Ctx>): (r: seq<Ctx>)
    ensures |r| == |s| && forall k :: 0 <= k < |s| ==> r[k] == s[|s| - 1 - k]
  {
    if s == [] then [] else [s[|s| - 1]] + Reverse(s[..|s| - 1])
  }

  /** The contexts in the order they end up in the line. */
  function Ascending(s: seq<Ctx>): seq<Ctx>
  {
    Reverse(SortDesc(s))
  }

  /** The contexts appear in the line in non-decreasing priority, each
      exactly as often as on the record. */
  lemma AscendingOrder(s: seq<Ctx>)
    ensures forall i, j :: 0 <= i < j < |Ascending(s)| ==> Ascending(s)[i].priority <= Ascending(s)[j].priority
    ensures multiset(Ascending(s)) == multiset(s)
  {
    SortDescSorted(s);
    var d := SortDesc(s);
    var a := Ascending(s);
    assert forall i, j :: 0 <= i < j < |a| ==> a[i] == d[|d| - 1 - i] && a[j] == d[|d| - 1 - j];
    assert multiset(a) == multiset(d) by {
      ReverseMultiset(d);
    }
  }

  lemma {:induction false} ReverseMultiset(s: seq<Ctx>)
    ensures multiset(Reverse(s)) == multiset(s)
  {
    if s != [] {
      ReverseMultiset(s[..|s| - 1]);
      assert s == s[..|s| - 1] + [s[|s| - 1]];
    }
  }

  /** The placeholders for a sequence of contexts, in order. */
  function CtxFields(s: seq<Ctx>): (r: seq<Field>)
  {
    seq(|s|, k requires 0 <= k < |s| => CtxField(s[k].name))
  }

  /** The template of the line: stamp, level, the contexts in ascending
      priority, the message, and the exception text when it is shown. */
  function Template(contexts: seq<Ctx>, withExc: bool): seq<Field>
  {
    [StampField, LevelField] + CtxFields(Ascending(contexts)) + [MsgField] + (if withExc then [ExcField] else [])
  }

  /** The template starts with the stamp and the level, holds one context
      placeholder per context in the order `Ascending` gives (see
      `AscendingOrder`), and ends with the message and, when shown, the
      exception text. */
  lemma TemplateShape(contexts: seq<Ctx>, withExc: bool)
    ensures var t := Template(contexts, withExc);
            var n := |contexts|;
            |t| == n + 3 + (if withExc then 1 else 0) &&
            t[0] == StampField && t[1] == LevelField && t[n + 2] == MsgField &&
            (withExc ==> t[n + 3] == ExcField) &&
            t[2..n + 2] == CtxFields(Ascending(contexts))
  {
    var b := CtxFields(Ascending(contexts));
    var rest: seq<Field> := [MsgField] + (if withExc then [ExcField] else []);
    var t := Template(contexts, withExc);
    assert t == [StampField, LevelField] + b + rest;
    assert t[2..|contexts| + 2] == b;
  }

  /** Whether the exception text is added: the record carries exception
      information and either tracebacks were asked for with exactly `True`
      or the terminal handler is at DEBUG. */
  predicate ShowsTraceback(record: Record, logTracebacks: Flag, stderrLevel: int)
  {
    record.excInfo.Some? && (logTracebacks.IsTrue() || stderrLevel == LevelDebug)
  }

  /** The values dictionary after the contexts `s` were added in order. */
  function WithContexts(values: map<string, string>, s: seq<Ctx>): (r: map<string, string>)
    ensures values.Keys <= r.Keys
    ensures forall c :: c in s ==> c.name in r
  {
    if s == [] then values
    else WithContexts(values, s[..|s| - 1])[s[|s| - 1].name := s[|s| - 1].value]
  }

  /** The keys after adding contexts are the old ones and the context
      names; a context name holds the value of the last context of that
      name, and every other key keeps its old value. */
  lemma {:induction false} WithContextsMeaning(values: map<string, string>, s: seq<Ctx>)
    ensures forall n :: n in WithContexts(values, s) ==> n in values || exists c :: c in s && c.name == n
    ensures forall k :: 0 <= k < |s| && (forall j :: k < j < |s| ==> s[j].name != s[k].name) ==>
              WithContexts(values, s)[s[k].name] == s[k].value
    ensures forall n :: n in values && (forall c :: c in s ==> c.name != n) ==> WithContexts(values, s)[n] == values[n]
  {
    if s != [] {
      var init := s[..|s| - 1];
      var prev, r := WithContexts(values, init), WithContexts(values, s);
      WithContextsMeaning(values, init);
      assert r == prev[s[|s| - 1].name := s[|s| - 1].value];
      forall n | n in r
        ensures n in values || exists c :: c in s && c.name == n
      {
        if n != s[|s| - 1].name {
          assert n in prev;
          if n !in values {
            var c :| c in init && c.name == n;
            assert c in s;
          }
        }
      }
      forall k | 0 <= k < |s| && (forall j :: k < j < |s| ==> s[j].name != s[k].name)
        ensures r[s[k].name] == s[k].value
      {
        if k < |s| - 1 {
          assert init[k] == s[k];
          assert forall j :: k < j < |init| ==> init[j].name != init[k].name by {
            forall j | k < j < |init| ensures init[j].name != init[k].name {
              assert init[j] == s[j];
            }
          }
        }
      }
      forall n | n in values && (forall c :: c in s ==> c.name != n)
        ensures r[n] == values[n]
      {
        assert forall c :: c in init ==> c in s;
      }
    }
  }

  /** The name `.format` looks up for a placeholder. */
  function Key(f: Field): string
  {
    match f
    case StampField => "stamp"
    case LevelField => "level"
    case MsgField => "msg"
    case ExcField => "exc_text"
    case CtxField(name) => name
  }

  /** One placeholder filled in: stamp, level and contexts in brackets, the
      message and the exception text bare. */
  function Render(f: Field, values: map<string, string>): string
  {
    var v := if Key(f) in values then values[Key(f)] else "";
    if f.MsgField? || f.ExcField? then v else "[" + v + "]"
  }

  function RenderAll(fields: seq<Field>, values: map<string, string>): (r: seq<string>)
  {
    seq(|fields|, k requires 0 <= k < |fields| => Render(fields[k], values))
  }

  /** What `format` makes of a record: an unknown level raises; otherwise
      the template is filled in, joined with spaces and styled with the
      level's colour. */
  ghost function Formatted(record: Record, logTracebacks: Flag, stderrLevel: int,
                           excs: map<nat, Exception>, render: (string, Exception) -> string): Result<Line>
    requires ShowsTraceback(record, logTracebacks, stderrLevel) ==> exists n: nat :: EndsAfter(excs, record.excInfo.value, n)
  {
    if record.level !in LevelTags then Err(LevelKeyError(record.level))
    else
      var shows := ShowsTraceback(record, logTracebacks, stderrLevel);
      var base := map["stamp" := record.stamp, "level" := LevelTags[record.level], "msg" := record.msg];
      var withExc := if shows then base["exc_text" := ExceptionText(excs, record.excInfo.value, render)] else base;
      var values := WithContexts(withExc, SortDesc(record.contexts));
      var template := Template(record.contexts, shows);
      Ok(Line(Join(RenderAll(template, values), ' '), Colour(record.level)))
  }

  /** One round of the loop below: the placeholder inserted after the level
      extends the reversed contexts by one at the front, and the value added
      extends the values by one context. */
  lemma PlaceStep(sorted: seq<Ctx>, i: nat, tail: seq<Field>, base: map<string, string>)
    requires i < |sorted|
    ensures var fmt := [StampField, LevelField] + CtxFields(Reverse(sorted[..i])) + tail;
            fmt[..2] + [CtxField(sorted[i].name)] + fmt[2..] ==
              [StampField, LevelField] + CtxFields(Reverse(sorted[..i + 1])) + tail
    ensures WithContexts(base, sorted[..i + 1]) == WithContexts(base, sorted[..i])[sorted[i].name := sorted[i].value]
  {
    var fmt := [StampField, LevelField] + CtxFields(Reverse(sorted[..i])) + tail;
    var prev := CtxFields(Reverse(sorted[..i]));
    assert sorted[..i + 1][..i] == sorted[..i];
    assert Reverse(sorted[..i + 1]) == [sorted[i]] + Reverse(sorted[..i]);
    assert CtxFields(Reverse(sorted[..i + 1])) == [CtxField(sorted[i].name)] + prev;
    assert fmt[..2] == [StampField, LevelField] && fmt[2..] == prev + tail;
  }

  /** The loop of `format` over the contexts sorted by descending
      priority: each context's placeholder goes right after the level, so
      the last one inserted, the lowest, ends up first, and each context's
      value is added to the values. */
  method PlaceContexts(sorted: seq<Ctx>, tail: seq<Field>, base: map<string, string>)
    returns (fmt: seq<Field>, values: map<string, string>)
    ensures fmt == [StampField, LevelField] + CtxFields(Reverse(sorted)) + tail
    ensures values == WithContexts(base, sorted)
  {
    fmt := [StampField, LevelField] + tail;
    values := base;
    for i := 0 to |sorted|
      invariant fmt == [StampField, LevelField] + CtxFields(Reverse(sorted[..i])) + tail
      invariant values == WithContexts(base, sorted[..i])
    {
      PlaceStep(sorted, i, tail, base);
      fmt := fmt[..2] + [CtxField(sorted[i].name)] + fmt[2..];
      values := values[sorted[i].name := sorted[i].value];
    }
    assert sorted[..|sorted|] == sorted;
  }

  /** `LoggingFormatter.format`, with the colour lookup corrected. */
  method Format(record: Record, logTracebacks: Flag, stderrLevel: int,
                excs: map<nat, Exception>, render: (string, Exception) -> string) returns (r: Result<Line>)
    requires ShowsTraceback(record, logTracebacks, stderrLevel) ==> exists n: nat :: EndsAfter(excs, record.excInfo.value, n)
    ensures r == Formatted(record, logTracebacks, stderrLevel, excs, render)
  {
    if record.level !in LevelTags {
      return Err(LevelKeyError(record.level));
    }
    var values := map["stamp" := record.stamp, "level" := LevelTags[record.level], "msg" := record.msg];
    var tail := [MsgField];
    if ShowsTraceback(record, logTracebacks, stderrLevel) {
      tail := tail + [ExcField];
      var text := FormatExceptionChain(excs, record.excInfo.value, render);
      assert text == ExceptionText(excs, record.excInfo.value, render);
      values := values["exc_text" := text];
    }
    var fmt;
    fmt, values := PlaceContexts(SortDesc(record.contexts), tail, values);
    assert fmt == Template(record.contexts, ShowsTraceback(record, logTracebacks, stderrLevel));
    r := Ok(Line(Join(RenderAll(fmt, values), ' '), Colour(record.level)));
  }
}
