/** Framing of process output into lines, and the layer totals kept from them. */
module ProgressFraming {
  import opened Wrappers
  import opened Splitting

  type Bytes = seq<bv8>

  const NEWLINE: bv8 := 10
  const RETURN: bv8 := 13

  // ------------------------------------------------------------------- lines

  /** Without one carriage return at the end. */
  function Trim(line: Bytes): Bytes {
    if line != [] && line[|line| - 1] == RETURN then line[..|line| - 1] else line
  }

  function TrimAll(lines: seq<Bytes>): seq<Bytes> {
    seq(|lines|, i requires 0 <= i < |lines| => Trim(lines[i]))
  }

  /** The lines of a finished stream: cut at every newline, the last one kept
      only if it is not empty. */
  function Lines(all: Bytes): seq<Bytes> {
    var parts := Split(all, NEWLINE);
    TrimAll(Front(parts)) + if Last(parts) == [] then [] else [Trim(Last(parts))]
  }

  /** A stream between two writes: the unfinished line and what was delivered. */
  datatype Framing = Framing(pending: Bytes, delivered: seq<Bytes>)

  function Written(f: Framing, content: Bytes): Framing {
    var parts := Split(f.pending + content, NEWLINE);
    Framing(Last(parts), f.delivered + TrimAll(Front(parts)))
  }

  function Flushed(f: Framing): Framing {
    if f.pending == [] then f else Framing([], f.delivered + [Trim(f.pending)])
  }

  function WrittenAll(f: Framing, chunks: seq<Bytes>): Framing
    decreases |chunks|
  {
    if chunks == [] then f else WrittenAll(Written(f, chunks[0]), chunks[1..])
  }

  function Concat(chunks: seq<Bytes>): Bytes {
    if chunks == [] then [] else chunks[0] + Concat(chunks[1..])
  }

  lemma TrimAllOfParts(a: seq<Bytes>, b: seq<Bytes>)
    ensures TrimAll(a + b) == TrimAll(a) + TrimAll(b)
  {
  }

  /** A pending line has no newline in it. */
  ghost predicate Unfinished(f: Framing) {
    NEWLINE !in f.pending
  }

  lemma PartsOfTwoWrites(pending: Bytes, a: Bytes, b: Bytes)
    ensures var first := Split(pending + a, NEWLINE);
            Split(pending + (a + b), NEWLINE) == Front(first) + Split(Last(first) + b, NEWLINE)
  {
    SplitOfMore(pending + a, b, NEWLINE);
    assert pending + a + b == pending + (a + b);
  }

  /** Writing in two pieces or in one makes no difference. */
  lemma WriteTwice(f: Framing, a: Bytes, b: Bytes)
    ensures Written(Written(f, a), b) == Written(f, a + b)
  {
    PartsOfTwoWrites(f.pending, a, b);
    var first := Split(f.pending + a, NEWLINE);
    var second := Split(Last(first) + b, NEWLINE);
    EndsOfSum(Front(first), second);
    TrimAllOfParts(Front(first), Front(second));
    Regroup(f.delivered, TrimAll(Front(first)), TrimAll(Front(second)));
  }

  lemma Regroup(a: seq<Bytes>, b: seq<Bytes>, c: seq<Bytes>)
    ensures a + b + c == a + (b + c)
  {
  }

  lemma {:induction false} WritesAreOneWrite(f: Framing, chunks: seq<Bytes>)
    requires Unfinished(f)
    ensures WrittenAll(f, chunks) == Written(f, Concat(chunks))
    decreases |chunks|
  {
    if chunks == [] {
      assert f.pending + [] == f.pending;
      SplitWithout(f.pending, NEWLINE);
      assert f.delivered + TrimAll([]) == f.delivered;
    } else {
      var g := Written(f, chunks[0]);
      PartsLackSeparator(f.pending + chunks[0], NEWLINE);
      WritesAreOneWrite(g, chunks[1..]);
      WriteTwice(f, chunks[0], Concat(chunks[1..]));
    }
  }

  /** However a byte stream is cut into writes, after the flush exactly its
      lines were delivered. */
  lemma FramingIgnoresChunks(chunks: seq<Bytes>)
    ensures Flushed(WrittenAll(Framing([], []), chunks)) == Framing([], Lines(Concat(chunks)))
  {
    WritesAreOneWrite(Framing([], []), chunks);
    assert [] + Concat(chunks) == Concat(chunks);
    assert [] + TrimAll(Front(Split(Concat(chunks), NEWLINE))) == TrimAll(Front(Split(Concat(chunks), NEWLINE)));
  }

  // ----------------------------------------------------------------- monitor

  const TWO_63: int := 0x8000_0000_0000_0000

  /** A signed 64-bit sum. */
  function Wrap(x: int): int {
    var r := x % (2 * TWO_63);
    if r >= TWO_63 then r - 2 * TWO_63 else r
  }

  lemma WrapIsModular(x: int, y: int)
    ensures Wrap(Wrap(x) + y) == Wrap(y + x)
  {
    var m := 2 * TWO_63;
    var q := (x - Wrap(x)) / m;
    assert x - Wrap(x) == q * m by {
      assert x == x / m * m + x % m;
    }
    var r := (y + x) % m;
    assert y + x == (y + x) / m * m + r;
    var t := (Wrap(x) + y) % m;
    assert Wrap(x) + y == (Wrap(x) + y) / m * m + t;
    assert r - t == ((Wrap(x) + y) / m - (y + x) / m + q) * m;
  }

  datatype Layer = Layer(current: int, total: int, complete: bool)

  /** What the line patterns find: nothing, a step, or a step with a layer. */
  datatype Match = NoMatch | StepLine(step: int) | LayerLine(step: int, digest: string, current: int, total: int, done: bool)

  datatype Snapshot = Snapshot(current: int, total: int, completed: nat, known: nat, step: int)

  ghost function Sum(m: map<string, int>): int {
    if m == map[] then 0
    else
      var k :| k in m;
      m[k] + Sum(m - {k})
  }

  lemma {:induction false} SumWithout(m: map<string, int>, k: string)
    requires k in m
    ensures Sum(m) == m[k] + Sum(m - {k})
    decreases |m|
  {
    var j :| j in m && Sum(m) == m[j] + Sum(m - {j});
    if j != k {
      assert |m - {j}| < |m| && |m - {k}| < |m| by {
        assert (m - {j}).Keys == m.Keys - {j} && (m - {k}).Keys == m.Keys - {k};
      }
      SumWithout(m - {j}, k);
      SumWithout(m - {k}, j);
      assert m - {j} - {k} == m - {k} - {j};
    }
  }

  ghost function Currents(layers: map<string, Layer>): map<string, int> {
    map d | d in layers :: layers[d].current
  }

  ghost function Totals(layers: map<string, Layer>): map<string, int> {
    map d | d in layers :: layers[d].total
  }

  ghost function Completed(layers: map<string, Layer>): set<string> {
    set d | d in layers && layers[d].complete
  }

  ghost predicate ValidLayers(layers: map<string, Layer>) {
    forall d | d in layers :: 0 <= layers[d].current <= layers[d].total && 0 < layers[d].total
  }

  lemma {:induction false} SumsAreOrdered(layers: map<string, Layer>)
    requires ValidLayers(layers)
    ensures 0 <= Sum(Currents(layers)) <= Sum(Totals(layers))
    decreases |layers|
  {
    if layers != map[] {
      var d :| d in layers;
      SumWithout(Currents(layers), d);
      SumWithout(Totals(layers), d);
      assert (layers - {d}).Keys == layers.Keys - {d};
      assert Currents(layers - {d}) == Currents(layers) - {d};
      assert Totals(layers - {d}) == Totals(layers) - {d};
      SumsAreOrdered(layers - {d});
    } else {
      assert Currents(layers) == map[] && Totals(layers) == map[];
    }
  }

  /** The exact summary of the layers, with its byte sums in 64 bits. */
  ghost predicate Summarizes(s: Snapshot, layers: map<string, Layer>, step: int) {
    && s.current == Wrap(Sum(Currents(layers)))
    && s.total == Wrap(Sum(Totals(layers)))
    && s.completed == |Completed(layers)|
    && s.known == |layers|
    && s.step == step
  }

  /** Every snapshot counts no more complete layers than known ones. It shows no
      more current bytes than total ones, and neither negative, exactly if the
      sums modulo 2^64 are in this order and below 2^63: always while the total
      fits in 64 bits. */
  lemma SnapshotsAreOrdered(s: Snapshot, layers: map<string, Layer>, step: int)
    requires ValidLayers(layers) && Summarizes(s, layers, step)
    ensures s.completed <= s.known
    ensures 0 <= s.current <= s.total
            <==> Sum(Currents(layers)) % (2 * TWO_63) <= Sum(Totals(layers)) % (2 * TWO_63) < TWO_63
    ensures Sum(Totals(layers)) < TWO_63 ==> 0 <= s.current <= s.total
  {
    SumsAreOrdered(layers);
    assert Completed(layers) <= layers.Keys;
    SetSizes(Completed(layers), layers.Keys);
    assert |layers.Keys| == |layers|;
  }

  lemma {:induction false} SetSizes(a: set<string>, b: set<string>)
    requires a <= b
    ensures |a| <= |b|
  {
    if a != {} {
      var x :| x in a;
      SetSizes(a - {x}, b - {x});
    }
  }

  /** Two half-pulled layers of five exbibytes each show a negative total. */
  lemma LargeTotalsWrap()
    ensures var half := 0x5000_0000_0000_0000;
            var layers := map["a" := Layer(half, half, true), "b" := Layer(0, half, false)];
            ValidLayers(layers) && Wrap(Sum(Totals(layers))) < 0 < Wrap(Sum(Currents(layers)))
  {
    var half := 0x5000_0000_0000_0000;
    var layers := map["a" := Layer(half, half, true), "b" := Layer(0, half, false)];
    SumWithout(Totals(layers), "a");
    SumWithout(Totals(layers) - {"a"}, "b");
    SumWithout(Currents(layers), "a");
    SumWithout(Currents(layers) - {"a"}, "b");
    assert Totals(layers) - {"a"} - {"b"} == map[] && Currents(layers) - {"a"} - {"b"} == map[];
  }

  /** The summary of the layers that are not in `rest` any more. */
  ghost predicate Counted(s: Snapshot, layers: map<string, Layer>, rest: map<string, Layer>, step: int) {
    && rest.Keys <= layers.Keys
    && (forall d | d in rest :: rest[d] == layers[d])
    && Summarizes(s, layers - rest.Keys, step)
  }

  lemma NothingCounted(layers: map<string, Layer>, step: int)
    ensures Counted(Snapshot(0, 0, 0, 0, step), layers, layers, step)
  {
    var none := layers - layers.Keys;
    assert none == map[] && Currents(none) == map[] && Totals(none) == map[];
  }

  lemma CurrentsWithout(layers: map<string, Layer>, d: string)
    requires d in layers
    ensures Sum(Currents(layers)) == layers[d].current + Sum(Currents(layers - {d}))
  {
    SumWithout(Currents(layers), d);
    assert Currents(layers) - {d} == Currents(layers - {d});
  }

  lemma TotalsWithout(layers: map<string, Layer>, d: string)
    requires d in layers
    ensures Sum(Totals(layers)) == layers[d].total + Sum(Totals(layers - {d}))
  {
    SumWithout(Totals(layers), d);
    assert Totals(layers) - {d} == Totals(layers - {d});
  }

  lemma CompletedWithout(layers: map<string, Layer>, d: string)
    requires d in layers
    ensures |Completed(layers)| == (if layers[d].complete then 1 else 0) + |Completed(layers - {d})|
    ensures |layers| == 1 + |layers - {d}|
  {
    assert Completed(layers) == Completed(layers - {d}) + if layers[d].complete then {d} else {};
    assert layers.Keys == (layers - {d}).Keys + {d};
  }

  function With(s: Snapshot, layer: Layer): Snapshot {
    Snapshot(Wrap(s.current + layer.current), Wrap(s.total + layer.total),
             s.completed + (if layer.complete then 1 else 0), s.known + 1, s.step)
  }

  lemma AddOne(s: Snapshot, layers: map<string, Layer>, step: int, d: string)
    requires d in layers && Summarizes(s, layers - {d}, step)
    ensures Summarizes(With(s, layers[d]), layers, step)
  {
    CurrentsWithout(layers, d);
    TotalsWithout(layers, d);
    CompletedWithout(layers, d);
    WrapIsModular(Sum(Currents(layers - {d})), layers[d].current);
    WrapIsModular(Sum(Totals(layers - {d})), layers[d].total);
  }

  lemma CountOne(s: Snapshot, layers: map<string, Layer>, rest: map<string, Layer>, step: int, d: string)
    requires Counted(s, layers, rest, step) && d in rest
    ensures Counted(With(s, layers[d]), layers, rest - {d}, step)
  {
    var now := layers - (rest - {d}).Keys;
    assert (rest - {d}).Keys == rest.Keys - {d};
    assert layers - rest.Keys == now - {d};
    AddOne(s, now, step, d);
  }

  lemma AllCounted(s: Snapshot, layers: map<string, Layer>, step: int)
    requires Counted(s, layers, map[], step)
    ensures Summarizes(s, layers, step)
  {
    var none: map<string, Layer> := map[];
    assert layers - none.Keys == layers;
  }

  /** What a monitor knows: the layers by digest, and the active step. */
  datatype Progress = Progress(layers: map<string, Layer>, step: int)

  /** What one line adds: a step, and a layer whose current bytes never exceed
      its total. */
  function Observe(p: Progress, m: Match): Progress {
    match m
    case NoMatch => p
    case StepLine(step) => p.(step := step)
    case LayerLine(step, digest, current, total, done) =>
      if current < 0 || total <= 0 then p
      else
        var kept := if current > total then total else current;
        Progress(p.layers[digest := Layer(kept, total, done || kept == total)], step)
  }

  function ObserveAll(p: Progress, classify: Bytes -> Match, lines: seq<Bytes>): Progress {
    if lines == [] then p else Observe(ObserveAll(p, classify, Front(lines)), classify(Last(lines)))
  }

  lemma ObserveOneMore(p: Progress, classify: Bytes -> Match, lines: seq<Bytes>, line: Bytes)
    ensures ObserveAll(p, classify, lines + [line]) == Observe(ObserveAll(p, classify, lines), classify(line))
  {
    assert Front(lines + [line]) == lines;
  }

  /** The line tells the progress of this layer. */
  predicate Tells(m: Match, digest: string) {
    m.LayerLine? && m.digest == digest && m.current >= 0 && m.total > 0
  }

  /** A layer shows what the last line about it told, whatever came before or was
      told of others since; its bytes are cut off at its total, and it is complete
      if the line said so or no byte is missing. */
  lemma {:induction false} LatestLineCounts(p: Progress, classify: Bytes -> Match, lines: seq<Bytes>, i: nat, digest: string)
    requires i < |lines| && Tells(classify(lines[i]), digest)
    requires forall j | i < j < |lines| :: !Tells(classify(lines[j]), digest)
    ensures var (layers, m) := (ObserveAll(p, classify, lines).layers, classify(lines[i]));
            && digest in layers && layers[digest].total == m.total
            && layers[digest].current == (if m.current < m.total then m.current else m.total)
            && (layers[digest].complete <==> m.done || m.current >= m.total)
  {
    if i < |lines| - 1 {
      assert lines[|lines| - 1] == Last(lines) && forall j | 0 <= j < |lines| - 1 :: Front(lines)[j] == lines[j];
      LatestLineCounts(p, classify, Front(lines), i, digest);
    }
  }

  /** A layer that no line tells of stays as it is, or unknown. */
  lemma {:induction false} UntoldLayersStay(p: Progress, classify: Bytes -> Match, lines: seq<Bytes>, digest: string)
    requires forall line | line in lines :: !Tells(classify(line), digest)
    ensures var layers := ObserveAll(p, classify, lines).layers;
            (digest in layers <==> digest in p.layers) && (digest in layers ==> layers[digest] == p.layers[digest])
  {
    if lines != [] { UntoldLayersStay(p, classify, Front(lines), digest); }
  }

  /** The lines delivered since `was` lead from one progress to the other. */
  ghost predicate Seen(before: Progress, after: Progress, classify: Bytes -> Match, was: seq<Bytes>, delivered: seq<Bytes>) {
    was <= delivered && after == ObserveAll(before, classify, delivered[|was|..])
  }

  lemma SeeOneMore(before: Progress, after: Progress, classify: Bytes -> Match, was: seq<Bytes>, known: seq<Bytes>, delivered: seq<Bytes>)
    requires Seen(before, after, classify, was, known) && |delivered| == |known| + 1 && Front(delivered) == known
    ensures Seen(before, Observe(after, classify(Last(delivered))), classify, was, delivered)
  {
    assert delivered[|was|..] == known[|was|..] + [Last(delivered)];
    ObserveOneMore(before, classify, known[|was|..], Last(delivered));
  }

  lemma WriteEnds(was: seq<Bytes>, whole: Bytes, delivered: seq<Bytes>, pending: Bytes)
    requires Written(Framing([], was), whole) == Written(Framing([], delivered), pending) && NEWLINE !in pending
    ensures Framing(pending, delivered) == Written(Framing([], was), whole)
  {
    SplitWithout(pending, NEWLINE);
    assert [] + pending == pending;
    assert delivered + TrimAll([]) == delivered;
  }

  lemma PendingIsWritten(pending: Bytes, delivered: seq<Bytes>, content: Bytes)
    ensures Written(Framing(pending, delivered), content) == Written(Framing([], delivered), pending + content)
  {
    assert [] + (pending + content) == pending + content;
  }

  class Monitor {
    const classify: Bytes -> Match
    const interval: int
    var layers: map<string, Layer>
    var activeStep: int
    var observed: bool
    var lastReport: Option<int>
    var reports: seq<(int, Snapshot)>

    ghost predicate Valid()
      reads this
    {
      && ValidLayers(layers)
      && (reports != [] ==> observed && lastReport == Some(Last(reports).0))
      && (forall i | 0 < i < |reports| :: reports[i].0 - reports[i - 1].0 >= interval)
    }

    ghost function View(): Progress
      reads this
    {
      Progress(layers, activeStep)
    }

    /** Whether a report at this time would come too soon after the last. */
    predicate TooSoon(now: int)
      reads this
    {
      observed && lastReport.Some? && now - lastReport.value < interval
    }

    constructor (classify: Bytes -> Match, interval: int)
      ensures Valid() && View() == Progress(map[], 0) && reports == [] && this.classify == classify
    {
      this.classify, this.interval := classify, interval;
      layers, activeStep, observed, lastReport, reports := map[], 0, false, None, [];
    }

    /** One line, matched without its surrounding blanks; `changed` says whether the summary moved. */
    method ConsumeLine(line: Bytes) returns (changed: bool)
      requires Valid()
      modifies `layers, `activeStep
      ensures ValidLayers(layers)
      ensures View() == Observe(old(View()), classify(line))
      ensures changed <==> View() != old(View())
    {
      match classify(line)
      case NoMatch => changed := false;
      case StepLine(step) =>
        changed := step != activeStep;
        activeStep := step;
      case LayerLine(step, digest, current, total, done) =>
        if current < 0 || total <= 0 { return false; }
        changed := step != activeStep;
        activeStep := step;
        var kept := if current > total then total else current;
        var layer := Layer(kept, total, done || kept == total);
        ghost var was := layers;
        if digest !in layers || layers[digest] != layer {
          layers := layers[digest := layer];
          assert layers[digest] == layer && (digest !in was || was[digest] != layer);
          changed := true;
        } else {
          assert layers == layers[digest := layer];
        }
    }

    method TakeSnapshot() returns (s: Snapshot)
      ensures Summarizes(s, layers, activeStep)
    {
      s := Snapshot(0, 0, 0, 0, activeStep);
      var rest := layers;
      NothingCounted(layers, activeStep);
      while rest != map[]
        invariant Counted(s, layers, rest, activeStep)
        decreases |rest|
      {
        var d :| d in rest;
        CountOne(s, layers, rest, activeStep, d);
        CompletedWithout(rest, d);
        s := With(s, layers[d]);
        rest := rest - {d};
      }
      AllCounted(s, layers, activeStep);
    }

    /** A line is reported exactly if it changes the summary and the last report
        is at least one interval ago; the report is exact. */
    method Consume(line: Bytes, now: int)
      requires Valid()
      modifies this
      ensures Valid()
      ensures View() == Observe(old(View()), classify(line))
      ensures View() == old(View()) || old(TooSoon(now)) ==> reports == old(reports)
      ensures View() != old(View()) && !old(TooSoon(now)) ==>
                reports != [] && Front(reports) == old(reports) && Last(reports).0 == now
                && Summarizes(Last(reports).1, layers, activeStep)
    {
      var changed := ConsumeLine(line);
      if !changed || (observed && lastReport.Some? && now - lastReport.value < interval) { return; }
      observed, lastReport := true, Some(now);
      var snapshot := TakeSnapshot();
      reports := reports + [(now, snapshot)];
    }
  }

  class Stream {
    const monitor: Monitor
    var pending: Bytes
    ghost var delivered: seq<Bytes>

    constructor (monitor: Monitor)
      ensures this.monitor == monitor && pending == [] && delivered == []
    {
      this.monitor, pending, delivered := monitor, [], [];
    }

    ghost function View(): Framing
      reads this
    {
      Framing(pending, delivered)
    }

    /** Delivers the first complete line. */
    method DeliverNext(now: int)
      requires monitor.Valid() && NEWLINE in pending
      modifies this, monitor
      ensures monitor.Valid() && |pending| < |old(pending)|
      ensures |delivered| == |old(delivered)| + 1 && Front(delivered) == old(delivered)
      ensures Written(Framing([], old(delivered)), old(pending)) == Written(Framing([], delivered), pending)
      ensures monitor.View() == Observe(old(monitor.View()), monitor.classify(Last(delivered)))
    {
      var index := IndexOf(pending);
      var line, rest := pending[..index], pending[index + 1..];
      assert pending == line + [NEWLINE] + rest;
      SplitAtSeparator(line, rest, NEWLINE);
      SplitWithout(line, NEWLINE);
      DeliverOne(delivered, line, rest);
      delivered := delivered + [Trim(line)];
      pending := rest;
      monitor.Consume(Trim(line), now);
    }

    /** Delivers every complete line to the monitor, which sees exactly those, and
        reads the clock for each of them. */
    method Write(content: Bytes, clock: nat -> int) returns (n: nat)
      requires monitor.Valid()
      modifies this, monitor
      ensures monitor.Valid() && n == |content|
      ensures View() == Written(old(View()), content)
      ensures old(delivered) <= delivered
      ensures monitor.View() == ObserveAll(old(monitor.View()), monitor.classify, delivered[|old(delivered)|..])
    {
      PendingIsWritten(pending, delivered, content);
      pending := pending + content;
      ghost var whole, was, before := pending, delivered, monitor.View();
      assert delivered[|was|..] == [];
      var line := 0;
      while NEWLINE in pending
        invariant monitor.Valid()
        invariant Written(Framing([], was), whole) == Written(Framing([], delivered), pending)
        invariant Seen(before, monitor.View(), monitor.classify, was, delivered)
        decreases |pending|
      {
        ghost var known, view := delivered, monitor.View();
        DeliverNext(clock(line));
        line := line + 1;
        SeeOneMore(before, view, monitor.classify, was, known, delivered);
      }
      WriteEnds(was, whole, delivered, pending);
      n := |content|;
    }

    method Flush(now: int)
      requires monitor.Valid()
      modifies this, monitor
      ensures monitor.Valid()
      ensures View() == Flushed(old(View()))
      ensures old(delivered) <= delivered
      ensures monitor.View() == ObserveAll(old(monitor.View()), monitor.classify, delivered[|old(delivered)|..])
    {
      ghost var was := delivered;
      if pending == [] {
        assert delivered[|was|..] == [];
        return;
      }
      var line := Trim(pending);
      pending := [];
      delivered := delivered + [line];
      ObserveOneMore(old(monitor.View()), monitor.classify, [], line);
      assert [] + [line] == [line] && delivered[|was|..] == [line];
      monitor.Consume(line, now);
    }
  }

  method IndexOf(s: Bytes) returns (index: nat)
    requires NEWLINE in s
    ensures index < |s| && s[index] == NEWLINE && NEWLINE !in s[..index]
  {
    index := 0;
    while s[index] != NEWLINE
      invariant index < |s| && NEWLINE !in s[..index] && NEWLINE in s[index..]
      decreases |s| - index
    {
      index := index + 1;
    }
  }

  lemma DeliverOne(delivered: seq<Bytes>, line: Bytes, rest: Bytes)
    requires Split(line + [NEWLINE] + rest, NEWLINE) == [line] + Split(rest, NEWLINE)
    ensures Written(Framing([], delivered), line + [NEWLINE] + rest) == Written(Framing([], delivered + [Trim(line)]), rest)
  {
    var parts := Split(rest, NEWLINE);
    assert [] + (line + [NEWLINE] + rest) == line + [NEWLINE] + rest && [] + rest == rest;
    assert Front([line] + parts) == [line] + Front(parts);
    TrimAllOfParts([line], Front(parts));
    assert TrimAll([line]) == [Trim(line)];
  }
}
