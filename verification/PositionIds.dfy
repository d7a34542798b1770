/** Image token spans and the three-axis position ids (vendor-fastembed/src/models/qwen3.rs): scan for the runs of
    the image token, then fill one flat `(3, batch, seq)` buffer. */
module PositionIds {
  import opened Division
  import opened PatchGrid
  import opened RowMajor
  import opened Wrappers

  // ---------- token spans ----------

  datatype Span = Span(start: nat, end: nat)

  /** A run that cannot be extended on either side. */
  ghost predicate MaximalRun<T>(ids: seq<T>, token: T, run: Span) {
    && run.start < run.end <= |ids|
    && (forall i | run.start <= i < run.end :: ids[i] == token)
    && (run.start > 0 ==> ids[run.start - 1] != token)
    && (run.end < |ids| ==> ids[run.end] != token)
  }

  ghost predicate Covers(runs: seq<Span>, p: nat) {
    exists k :: 0 <= k < |runs| && runs[k].start <= p < runs[k].end
  }

  /** The maximal runs that end by `i`, in order, with a gap between neighbours, covering every occurrence before
      `i`. */
  ghost predicate AreTheRunsUpTo<T>(ids: seq<T>, token: T, runs: seq<Span>, i: nat)
    requires i <= |ids|
  {
    && (forall k | 0 <= k < |runs| :: MaximalRun(ids, token, runs[k]) && runs[k].end <= i)
    && (forall k, l | 0 <= k < l < |runs| :: runs[k].end < runs[l].start)
    && (forall p: nat | p < i && ids[p] == token :: Covers(runs, p))
  }

  ghost predicate AreTheRuns<T>(ids: seq<T>, token: T, runs: seq<Span>) {
    AreTheRunsUpTo(ids, token, runs, |ids|)
  }

  /** `find_token_spans`. */
  method FindTokenSpans<T(==)>(ids: seq<T>, token: T) returns (spans: seq<Span>)
    ensures AreTheRuns(ids, token, spans)
  {
    hide AreTheRunsUpTo;
    spans := [];
    var i: nat := 0;
    NothingScanned(ids, token);
    while i < |ids|
      invariant i <= |ids| && AreTheRunsUpTo(ids, token, spans, i)
      invariant 0 < i < |ids| && ids[i] == token ==> ids[i - 1] != token
    {
      if ids[i] == token {
        var start := i;
        while i < |ids| && ids[i] == token
          invariant start <= i <= |ids|
          invariant forall p | start <= p < i :: ids[p] == token
        {
          i := i + 1;
        }
        RunAdded(ids, token, spans, start, i);
        spans := spans + [Span(start, i)];
      } else {
        TokenSkipped(ids, token, spans, i);
        i := i + 1;
      }
    }
  }

  lemma NothingScanned<T>(ids: seq<T>, token: T)
    ensures AreTheRunsUpTo(ids, token, [], 0)
  {
  }

  lemma TokenSkipped<T>(ids: seq<T>, token: T, spans: seq<Span>, i: nat)
    requires i < |ids| && AreTheRunsUpTo(ids, token, spans, i) && ids[i] != token
    ensures AreTheRunsUpTo(ids, token, spans, i + 1)
  {
  }

  lemma RunAdded<T>(ids: seq<T>, token: T, spans: seq<Span>, start: nat, end: nat)
    requires start <= end <= |ids| && AreTheRunsUpTo(ids, token, spans, start)
    requires MaximalRun(ids, token, Span(start, end))
    ensures AreTheRunsUpTo(ids, token, spans + [Span(start, end)], end)
  {
    var more := spans + [Span(start, end)];
    forall k, l | 0 <= k < l < |more| ensures more[k].end < more[l].start {
      if l == |spans| {
        assert MaximalRun(ids, token, spans[k]);
      }
    }
    forall p: nat | p < end && ids[p] == token ensures Covers(more, p) {
      if p < start {
        assert Covers(spans, p);
        var k :| 0 <= k < |spans| && spans[k].start <= p < spans[k].end;
        assert more[k] == spans[k];
      } else {
        assert more[|spans|].start <= p < more[|spans|].end;
      }
    }
  }

  /** There is only one such list, so the scan's answer is determined by the ids alone. */
  lemma TheRunsAreUnique<T>(ids: seq<T>, token: T, a: seq<Span>, b: seq<Span>)
    requires AreTheRuns(ids, token, a) && AreTheRuns(ids, token, b)
    ensures a == b
  {
    var n := if |a| < |b| then |a| else |b|;
    FrontsAgree(ids, token, a, b, n);
    NoMoreRuns(ids, token, a, b);
    NoMoreRuns(ids, token, b, a);
  }

  lemma NoMoreRuns<T>(ids: seq<T>, token: T, a: seq<Span>, b: seq<Span>)
    requires AreTheRuns(ids, token, a) && AreTheRuns(ids, token, b)
    requires forall k | 0 <= k < |b| && k < |a| :: a[k] == b[k]
    ensures |a| <= |b|
  {
    if |a| > |b| {
      StartIsShared(ids, token, a, b, |b|);
    }
  }

  lemma StartIsShared<T>(ids: seq<T>, token: T, a: seq<Span>, b: seq<Span>, k: nat)
    requires AreTheRuns(ids, token, a) && AreTheRuns(ids, token, b) && k < |a|
    ensures Covers(b, a[k].start)
  {
    assert MaximalRun(ids, token, a[k]);
  }

  lemma {:induction false} FrontsAgree<T>(ids: seq<T>, token: T, a: seq<Span>, b: seq<Span>, n: nat)
    requires AreTheRuns(ids, token, a) && AreTheRuns(ids, token, b)
    requires n <= |a| && n <= |b|
    ensures forall k | 0 <= k < n :: a[k] == b[k]
  {
    if n > 0 {
      var k := n - 1;
      FrontsAgree(ids, token, a, b, k);
      StartsNoLater(ids, token, a, b, k);
      StartsNoLater(ids, token, b, a, k);
      assert MaximalRun(ids, token, a[k]) && MaximalRun(ids, token, b[k]);
    }
  }

  lemma StartsNoLater<T>(ids: seq<T>, token: T, a: seq<Span>, b: seq<Span>, k: nat)
    requires AreTheRuns(ids, token, a) && AreTheRuns(ids, token, b)
    requires k < |a| && k < |b| && forall l | 0 <= l < k :: a[l] == b[l]
    ensures a[k].start <= b[k].start
  {
    var at := b[k].start;
    assert MaximalRun(ids, token, b[k]);
    assert Covers(a, at);
    var l :| 0 <= l < |a| && a[l].start <= at < a[l].end;
    if k < l {
      assert MaximalRun(ids, token, a[k]);
    }
  }

  // ---------- one row's ids ----------

  /** One prompt of the batch: its attention mask, its image span and its image's patch grid. */
  datatype Prompt = Prompt(mask: seq<nat>, span: Option<Span>, image: Option<Grid>)

  datatype PositionError = NoEncodings | BatchMismatch | NoPreparedImage | SpanPastVisible | SpanIsNotTheGrid

  function Visible(mask: seq<nat>): (n: nat)
    ensures n <= |mask|
  {
    if mask == [] then 0 else Visible(mask[..|mask| - 1]) + if mask[|mask| - 1] != 0 then 1 else 0
  }

  /** It is the number of unmasked positions. */
  lemma {:induction false} VisibleCounts(mask: seq<nat>)
    ensures Visible(mask) == |Unmasked(mask)|
  {
    if mask != [] {
      var n := |mask| - 1;
      VisibleCounts(mask[..n]);
      assert Unmasked(mask) == Unmasked(mask[..n]) + if mask[n] != 0 then {n} else {};
    }
  }

  function Unmasked(mask: seq<nat>): set<nat> {
    set i | 0 <= i < |mask| && mask[i] != 0
  }

  /** The tokenizer pads on the right: the mask is a run of ones and then zeros. */
  ghost predicate RightPadded(mask: seq<nat>) {
    forall i, j | 0 <= i < j < |mask| && mask[j] != 0 :: mask[i] != 0
  }

  /** So the counted positions are exactly the unmasked ones. */
  lemma {:induction false} VisibleIsThePrefix(mask: seq<nat>, pos: nat)
    requires RightPadded(mask) && pos < |mask|
    ensures pos < Visible(mask) <==> mask[pos] != 0
  {
    var n := |mask| - 1;
    if mask[n] != 0 {
      AllVisible(mask);
    } else if pos < n {
      VisibleIsThePrefix(mask[..n], pos);
    }
  }

  lemma {:induction false} AllVisible(mask: seq<nat>)
    requires forall i | 0 <= i < |mask| :: mask[i] != 0
    ensures Visible(mask) == |mask|
  {
    if mask != [] {
      AllVisible(mask[..|mask| - 1]);
    }
  }

  /** The image's grid after merging. */
  function Merged(g: Grid, merge: nat): Grid
    requires merge > 0
  {
    Grid(g.t, g.h / merge, g.w / merge)
  }

  function Largest(g: Grid): nat {
    var tallest := if g.t >= g.h then g.t else g.h;
    if tallest >= g.w then tallest else g.w
  }

  /** What makes a row an error, in the order the checks run. */
  function RowError(p: Prompt, merge: nat): Option<PositionError>
    requires merge > 0
  {
    if p.span.None? then None
    else if p.image.None? then Some(NoPreparedImage)
    else if p.span.value.end > Visible(p.mask) then Some(SpanPastVisible)
    else
      var g := Merged(p.image.value, merge);
      if p.span.value.end - p.span.value.start != g.t * g.h * g.w then Some(SpanIsNotTheGrid) else None
  }

  /** The first id after the image: one past the larger of the last id before it and the largest image id. */
  function IdAfterImage(start: nat, g: Grid): nat {
    var prefixMax := if start == 0 then 0 else start - 1;
    var imageMax := start + if Largest(g) == 0 then 0 else Largest(g) - 1;
    (if prefixMax >= imageMax then prefixMax else imageMax) + 1
  }

  /** The id on axis `axis` (time, row, column) at position `pos`: its position for text, its place in the merged
      grid past the span's start for an image token, counting on after the image; padding keeps 1. */
  function Id(p: Prompt, merge: nat, axis: nat, pos: nat): nat
    requires merge > 0 && axis < 3
  {
    if pos >= Visible(p.mask) then 1
    else if p.span.None? || p.image.None? || pos < p.span.value.start then pos
    else
      var start, end, g := p.span.value.start, p.span.value.end, Merged(p.image.value, merge);
      if pos < end then start + Decode([g.t, g.h, g.w], pos - start)[axis] else IdAfterImage(start, g) + (pos - end)
  }

  // ---------- the flat buffer ----------

  function Slot(batch: nat, width: nat, axis: nat, row: nat, pos: nat): nat {
    (axis * batch + row) * width + pos
  }

  lemma SlotIsEncoded(batch: nat, width: nat, axis: nat, row: nat, pos: nat)
    ensures Product([3, batch, width]) == 3 * batch * width
    ensures Encode([3, batch, width], [axis, row, pos]) == Slot(batch, width, axis, row, pos)
  {
    hide Product, Encode;
    ThreeAxes(3, batch, width, axis, row, pos);
  }

  lemma SlotInside(batch: nat, width: nat, axis: nat, row: nat, pos: nat)
    requires axis < 3 && row < batch && pos < width
    ensures Slot(batch, width, axis, row, pos) < 3 * batch * width
    ensures Decode([3, batch, width], Slot(batch, width, axis, row, pos)) == [axis, row, pos]
  {
    SlotIsEncoded(batch, width, axis, row, pos);
    EncodedWithin([3, batch, width], [axis, row, pos]);
    DecodeOfEncode([3, batch, width], [axis, row, pos]);
  }

  lemma SlotOfIndex(batch: nat, width: nat, i: nat)
    requires i < 3 * batch * width
    ensures var d := Decode([3, batch, width], i);
            d[0] < 3 && d[1] < batch && d[2] < width && i == Slot(batch, width, d[0], d[1], d[2])
  {
    var d := Decode([3, batch, width], i);
    SlotIsEncoded(batch, width, d[0], d[1], d[2]);
    EncodeOfDecode([3, batch, width], i);
    assert d == [d[0], d[1], d[2]];
  }

  /** How often a log of writes names a slot. */
  function Times(writes: seq<nat>, slot: nat): nat {
    if writes == [] then 0
    else Times(writes[..|writes| - 1], slot) + if writes[|writes| - 1] == slot then 1 else 0
  }

  lemma {:induction false} TimesIsTheMultiplicity(writes: seq<nat>, slot: nat)
    ensures Times(writes, slot) == multiset(writes)[slot]
  {
    if writes != [] {
      var n := |writes| - 1;
      TimesIsTheMultiplicity(writes[..n], slot);
      assert writes == writes[..n] + [writes[n]];
    }
  }

  lemma TimesAppended(writes: seq<nat>, x: nat, y: nat, z: nat, slot: nat)
    ensures Times(writes + [x, y, z], slot)
            == Times(writes, slot) + (if x == slot then 1 else 0) + (if y == slot then 1 else 0)
               + (if z == slot then 1 else 0)
  {
    assert writes + [x, y, z] == writes + [x] + [y] + [z];
    TimesOne(writes, x, slot);
    TimesOne(writes + [x], y, slot);
    TimesOne(writes + [x] + [y], z, slot);
  }

  lemma TimesOne(writes: seq<nat>, x: nat, slot: nat)
    ensures Times(writes + [x], slot) == Times(writes, slot) + if x == slot then 1 else 0
  {
    assert (writes + [x])[..|writes|] == writes;
  }

  /** Whether a slot is filled once all rows before `row`, and the first `done` positions of it, are. */
  predicate Filled(prompts: seq<Prompt>, width: nat, row: nat, done: nat, i: nat)
    requires i < 3 * |prompts| * width
  {
    SlotOfIndex(|prompts|, width, i);
    var d := Decode([3, |prompts|, width], i);
    if d[1] == row then d[2] < done else d[1] < row && d[2] < Visible(prompts[d[1]].mask)
  }

  function IdAt(prompts: seq<Prompt>, merge: nat, width: nat, i: nat): nat
    requires merge > 0 && i < 3 * |prompts| * width
  {
    SlotOfIndex(|prompts|, width, i);
    var d := Decode([3, |prompts|, width], i);
    Id(prompts[d[1]], merge, d[0], d[2])
  }

  /** Filled slots hold their id and were written once; the others hold 1 and were not written. */
  ghost predicate Progress(data: seq<nat>, writes: seq<nat>, prompts: seq<Prompt>, merge: nat, width: nat, row: nat,
                           done: nat)
    requires merge > 0
  {
    && |data| == 3 * |prompts| * width
    && forall i: nat | i < |data| ::
         && data[i] == (if Filled(prompts, width, row, done, i) then IdAt(prompts, merge, width, i) else 1)
         && Times(writes, i) == if Filled(prompts, width, row, done, i) then 1 else 0
  }

  lemma PositionWritten(data: seq<nat>, writes: seq<nat>, prompts: seq<Prompt>, merge: nat, width: nat, row: nat,
                        pos: nat, t: nat, h: nat, w: nat)
    requires merge > 0 && row < |prompts| && pos < Visible(prompts[row].mask) <= width
    requires Progress(data, writes, prompts, merge, width, row, pos)
    requires t == Id(prompts[row], merge, 0, pos) && h == Id(prompts[row], merge, 1, pos)
    requires w == Id(prompts[row], merge, 2, pos)
    ensures var n := |prompts|;
            var x, y, z := Slot(n, width, 0, row, pos), Slot(n, width, 1, row, pos), Slot(n, width, 2, row, pos);
            x < |data| && y < |data| && z < |data|
            && Progress(data[x := t][y := h][z := w], writes + [x, y, z], prompts, merge, width, row, pos + 1)
  {
    hide Slot, Id, Decode, Visible, Times;
    var n := |prompts|;
    var x, y, z := Slot(n, width, 0, row, pos), Slot(n, width, 1, row, pos), Slot(n, width, 2, row, pos);
    SlotInside(n, width, 0, row, pos);
    SlotInside(n, width, 1, row, pos);
    SlotInside(n, width, 2, row, pos);
    var after, log := data[x := t][y := h][z := w], writes + [x, y, z];
    forall i: nat | i < |data|
      ensures after[i] == (if Filled(prompts, width, row, pos + 1, i) then IdAt(prompts, merge, width, i) else 1)
      ensures Times(log, i) == if Filled(prompts, width, row, pos + 1, i) then 1 else 0
    {
      SlotOfIndex(n, width, i);
      TimesAppended(writes, x, y, z, i);
    }
  }

  lemma RowWritten(data: seq<nat>, writes: seq<nat>, prompts: seq<Prompt>, merge: nat, width: nat, row: nat)
    requires merge > 0 && row < |prompts|
    requires Progress(data, writes, prompts, merge, width, row, Visible(prompts[row].mask))
    ensures Progress(data, writes, prompts, merge, width, row + 1, 0)
  {
    hide Slot, Id, Decode, Visible, Times;
    forall i: nat | i < |data|
      ensures Filled(prompts, width, row + 1, 0, i) <==> Filled(prompts, width, row, Visible(prompts[row].mask), i)
    {
      SlotOfIndex(|prompts|, width, i);
    }
  }

  lemma NothingWritten(data: seq<nat>, prompts: seq<Prompt>, merge: nat, width: nat)
    requires merge > 0 && |data| == 3 * |prompts| * width && forall i | 0 <= i < |data| :: data[i] == 1
    ensures Progress(data, [], prompts, merge, width, 0, 0)
  {
    hide Slot, Id, Decode, Visible;
  }

  // ---------- filling it ----------

  /** What the parallel argument lists say of each row. */
  function Zipped(masks: seq<seq<nat>>, spans: seq<Option<Span>>, images: seq<Option<Grid>>): seq<Prompt>
    requires |masks| == |spans| == |images|
  {
    seq(|masks|, b requires 0 <= b < |masks| => Prompt(masks[b], spans[b], images[b]))
  }

  /** `build_image_position_ids` over a batch padded to one width: the first offending row's error, or every slot's
      id, each visible position written exactly once, padding never, and no write outside the buffer. */
  method BuildImagePositionIds(masks: seq<seq<nat>>, spans: seq<Option<Span>>, images: seq<Option<Grid>>, merge: nat)
    returns (r: Result<seq<nat>, PositionError>, ghost writes: seq<nat>)
    requires merge > 0
    requires forall b | 0 <= b < |masks| :: |masks[b]| == |masks[0]|
    requires forall b | 0 <= b < |spans| && spans[b].Some? :: spans[b].value.start <= spans[b].value.end
    ensures masks == [] ==> r == Err(NoEncodings)
    ensures masks != [] && !(|masks| == |spans| == |images|) ==> r == Err(BatchMismatch)
    ensures masks != [] && |masks| == |spans| == |images| ==>
              var prompts, width := Zipped(masks, spans, images), |masks[0]|;
              && (r.Ok? <==> forall b | 0 <= b < |prompts| :: RowError(prompts[b], merge).None?)
              && (r.Err? ==> exists b :: 0 <= b < |prompts| && RowError(prompts[b], merge) == Some(r.error)
                                         && forall c | 0 <= c < b :: RowError(prompts[c], merge).None?)
              && (r.Ok? ==> Progress(r.value, writes, prompts, merge, width, |prompts|, 0))
              && (r.Ok? ==>
                    |r.value| == 3 * |masks| * width
                    && forall b | 0 <= b < |masks| ::
                         RowIsRight(r.value, |masks|, width, b, Prompt(masks[b], spans[b], images[b]), merge))
  {
    hide Progress, RowIsRight, Slot, Id, Decode, Times, Visible, IdAfterImage;
    writes := [];
    if masks == [] {
      return Err(NoEncodings), writes;
    }
    if |masks| != |spans| || |masks| != |images| {
      return Err(BatchMismatch), writes;
    }
    var batch, width := |masks|, |masks[0]|;
    ghost var prompts := Zipped(masks, spans, images);
    BufferSize(batch, width);
    var data := new nat[3 * batch * width](_ => 1);
    NothingWritten(data[..], prompts, merge, width);
    var row: nat := 0;
    while row < batch
      invariant row <= batch
      invariant forall c | 0 <= c < row :: RowError(prompts[c], merge).None?
      invariant Progress(data[..], writes, prompts, merge, width, row, 0)
    {
      var failed;
      failed, writes := WriteRow(data, writes, prompts, merge, batch, width, row, masks[row], spans[row], images[row]);
      if failed.Some? {
        return Err(failed.value), writes;
      }
      row := row + 1;
    }
    r := Ok(data[..]);
    assert batch == |prompts| && forall b | 0 <= b < batch :: prompts[b] == Prompt(masks[b], spans[b], images[b]);
    assert |data[..]| == 3 * |prompts| * width;
    forall b | 0 <= b < |prompts| ensures RowIsRight(data[..], |prompts|, width, b, prompts[b], merge) {
      FinishedRowIsRight(data[..], writes, prompts, merge, width, batch, b);
    }
  }

  /** One pass of the loop over the batch. */
  method WriteRow(data: array<nat>, ghost before: seq<nat>, ghost prompts: seq<Prompt>, merge: nat, batch: nat,
                  width: nat, row: nat, mask: seq<nat>, span: Option<Span>, image: Option<Grid>)
    returns (failed: Option<PositionError>, ghost writes: seq<nat>)
    requires merge > 0 && batch == |prompts| && row < batch && prompts[row] == Prompt(mask, span, image)
    requires |mask| == width && (span.Some? ==> span.value.start <= span.value.end)
    requires Progress(data[..], before, prompts, merge, width, row, 0)
    modifies data
    ensures failed == RowError(prompts[row], merge)
    ensures failed == Some(NoPreparedImage) <==> span.Some? && image.None?
    ensures failed == Some(SpanPastVisible) <==> span.Some? && image.Some? && span.value.end > Visible(mask)
    ensures failed == Some(SpanIsNotTheGrid) <==>
              span.Some? && image.Some? && span.value.end <= Visible(mask)
              && span.value.end - span.value.start
                 != image.value.t * (image.value.h / merge) * (image.value.w / merge)
    ensures failed.None? ==> Progress(data[..], writes, prompts, merge, width, row + 1, 0)
    ensures failed.None? ==>
              |data[..]| == 3 * batch * width && RowIsRight(data[..], batch, width, row, prompts[row], merge)
  {
    hide Progress, RowIsRight, Slot, Id, Decode, Times, Visible, IdAfterImage;
    writes := before;
    var visible := Visible(mask);
    if span.None? {
      TextIdsBefore(prompts[row], merge, visible);
      writes := WriteText(data, writes, prompts, merge, batch, width, row, 0, visible, 0);
    } else {
      var start, end := span.value.start, span.value.end;
      if image.None? {
        return Some(NoPreparedImage), writes;
      }
      if end > visible {
        return Some(SpanPastVisible), writes;
      }
      var g := Merged(image.value, merge);
      if end - start != g.t * g.h * g.w {
        return Some(SpanIsNotTheGrid), writes;
      }
      TextIdsBefore(prompts[row], merge, start);
      writes := WriteText(data, writes, prompts, merge, batch, width, row, 0, start, 0);
      var seqPos;
      seqPos, writes := WriteImage(data, writes, prompts, merge, batch, width, row, start, g);
      if seqPos != end {
        // the count check after the loops: it cannot fire
        assert false;
      }
      TextIdsAfter(prompts[row], merge, IdAfterImage(start, g));
      writes := WriteText(data, writes, prompts, merge, batch, width, row, end, visible, IdAfterImage(start, g));
    }
    RowWritten(data[..], writes, prompts, merge, width, row);
    BufferKept(data[..], writes, prompts, merge, width, row + 1);
    FinishedRowIsRight(data[..], writes, prompts, merge, width, row + 1, row);
    failed := None;
  }

  lemma BufferKept(data: seq<nat>, writes: seq<nat>, prompts: seq<Prompt>, merge: nat, width: nat, done: nat)
    requires merge > 0 && Progress(data, writes, prompts, merge, width, done, 0)
    ensures |data| == 3 * |prompts| * width
  {
  }

  lemma BufferSize(batch: nat, width: nat)
    ensures 0 <= 3 * batch * width
  {
  }

  /** The loops over text positions: the same id on all three axes, counting on from `firstId`. */
  method WriteText(data: array<nat>, ghost before: seq<nat>, ghost prompts: seq<Prompt>, ghost merge: nat, batch: nat,
                   width: nat, row: nat, from: nat, to: nat, firstId: nat) returns (ghost writes: seq<nat>)
    requires merge > 0 && batch == |prompts| && row < batch && from <= to <= Visible(prompts[row].mask) <= width
    requires Progress(data[..], before, prompts, merge, width, row, from)
    requires forall pos: nat, axis: nat | from <= pos < to && axis < 3 ::
               Id(prompts[row], merge, axis, pos) == firstId + (pos - from)
    modifies data
    ensures Progress(data[..], writes, prompts, merge, width, row, to)
  {
    hide Progress, Slot, Id, Decode, Times, Visible;
    writes := before;
    for pos := from to to
      invariant Progress(data[..], writes, prompts, merge, width, row, pos)
    {
      var id: nat := firstId + (pos - from);
      PositionWritten(data[..], writes, prompts, merge, width, row, pos, id, id, id);
      var x, y, z := Slot(batch, width, 0, row, pos), Slot(batch, width, 1, row, pos), Slot(batch, width, 2, row, pos);
      ghost var was: seq<nat> := data[..];
      data[x] := id;
      data[y] := id;
      data[z] := id;
      assert data[..] == was[x := id][y := id][z := id];
      writes := writes + [x, y, z];
    }
  }

  lemma CubeDecoded(t: nat, h: nat, w: nat, bt: nat, bh: nat, bw: nat)
    requires t < bt && h < bh && w < bw
    ensures 0 <= (t * bh + h) * bw + w < bt * bh * bw
    ensures Decode([bt, bh, bw], (t * bh + h) * bw + w) == [t, h, w]
  {
    hide Decode, Encode, Product;
    ThreeAxes(bt, bh, bw, t, h, w);
    EncodedWithin([bt, bh, bw], [t, h, w]);
    DecodeOfEncode([bt, bh, bw], [t, h, w]);
  }

  /** The ids of one image token. */
  lemma ImageIdsAt(p: Prompt, merge: nat, g: Grid, t: nat, h: nat, w: nat)
    requires merge > 0 && p.span.Some? && p.image.Some? && g == Merged(p.image.value, merge)
    requires p.span.value.end <= Visible(p.mask) && p.span.value.end == p.span.value.start + g.t * g.h * g.w
    requires t < g.t && h < g.h && w < g.w
    ensures var pos := p.span.value.start + ((t * g.h + h) * g.w + w);
            0 <= pos < p.span.value.end
            && Id(p, merge, 0, pos) == p.span.value.start + t
            && Id(p, merge, 1, pos) == p.span.value.start + h
            && Id(p, merge, 2, pos) == p.span.value.start + w
  {
    hide Decode, Visible;
    CubeDecoded(t, h, w, g.t, g.h, g.w);
  }

  /** The loops over the merged grid. */
  method WriteImage(data: array<nat>, ghost before: seq<nat>, ghost prompts: seq<Prompt>, ghost merge: nat, batch: nat,
                    width: nat, row: nat, start: nat, g: Grid) returns (seqPos: nat, ghost writes: seq<nat>)
    requires merge > 0 && batch == |prompts| && row < batch
    requires prompts[row].span == Some(Span(start, start + g.t * g.h * g.w))
    requires prompts[row].image.Some? && g == Merged(prompts[row].image.value, merge)
    requires start + g.t * g.h * g.w <= Visible(prompts[row].mask) <= width
    requires Progress(data[..], before, prompts, merge, width, row, start)
    modifies data
    ensures seqPos == start + g.t * g.h * g.w
    ensures Progress(data[..], writes, prompts, merge, width, row, seqPos)
  {
    hide Progress, Slot, Id, Decode, Times, Visible;
    writes := before;
    seqPos := start;
    for t := 0 to g.t
      invariant seqPos == start + t * g.h * g.w
      invariant Progress(data[..], writes, prompts, merge, width, row, seqPos)
    {
      for h := 0 to g.h
        invariant seqPos == start + (t * g.h + h) * g.w
        invariant Progress(data[..], writes, prompts, merge, width, row, seqPos)
      {
        for w := 0 to g.w
          invariant seqPos == start + (t * g.h + h) * g.w + w
          invariant Progress(data[..], writes, prompts, merge, width, row, seqPos)
        {
          ImageIdsAt(prompts[row], merge, g, t, h, w);
          var tId: nat, hId: nat, wId: nat := start + t, start + h, start + w;
          PositionWritten(data[..], writes, prompts, merge, width, row, seqPos, tId, hId, wId);
          var x, y, z := Slot(batch, width, 0, row, seqPos), Slot(batch, width, 1, row, seqPos),
              Slot(batch, width, 2, row, seqPos);
          ghost var was: seq<nat> := data[..];
          data[x] := tId;
          data[y] := hId;
          data[z] := wId;
          assert data[..] == was[x := tId][y := hId][z := wId];
          writes := writes + [x, y, z];
          seqPos := seqPos + 1;
        }
        Distribute(t * g.h + h, 1, g.w);
      }
      Distribute(t, 1, g.h);
    }
  }

  lemma TextIdsBefore(p: Prompt, merge: nat, to: nat)
    requires merge > 0 && to <= Visible(p.mask) && (p.span.None? || p.image.None? || to <= p.span.value.start)
    ensures forall pos: nat, axis: nat | pos < to && axis < 3 :: Id(p, merge, axis, pos) == pos
  {
  }

  lemma TextIdsAfter(p: Prompt, merge: nat, firstId: nat)
    requires merge > 0 && p.span.Some? && p.image.Some? && p.span.value.start <= p.span.value.end
    requires firstId == IdAfterImage(p.span.value.start, Merged(p.image.value, merge))
    ensures forall pos: nat, axis: nat | p.span.value.end <= pos < Visible(p.mask) && axis < 3 ::
              Id(p, merge, axis, pos) == firstId + (pos - p.span.value.end)
  {
  }

  // ---------- what the ids promise ----------

  /** Tokens of one image never share a (time, row, column) triple. */
  lemma ImageTokensAreDistinct(p: Prompt, merge: nat, i: nat, j: nat)
    requires merge > 0 && p.span.Some? && RowError(p, merge).None?
    requires p.span.value.start <= i < j < p.span.value.end
    ensures exists axis: nat :: axis < 3 && Id(p, merge, axis, i) != Id(p, merge, axis, j)
  {
    hide Decode, Visible;
    var start, g := p.span.value.start, Merged(p.image.value, merge);
    ThreeAxes(g.t, g.h, g.w, 0, 0, 0);
    EncodeOfDecode([g.t, g.h, g.w], i - start);
    EncodeOfDecode([g.t, g.h, g.w], j - start);
    var d, e := Decode([g.t, g.h, g.w], i - start), Decode([g.t, g.h, g.w], j - start);
    assert d == [d[0], d[1], d[2]] && e == [e[0], e[1], e[2]] && d != e;
    var axis: nat := if d[0] != e[0] then 0 else if d[1] != e[1] then 1 else 2;
    assert Id(p, merge, axis, i) != Id(p, merge, axis, j);
  }

  /** Every id after the image exceeds every id before or inside it, whichever axes are compared. */
  lemma IdsAfterTheImageAreLarger(p: Prompt, merge: nat, i: nat, j: nat, a: nat, b: nat)
    requires merge > 0 && p.span.Some? && RowError(p, merge).None? && p.span.value.start <= p.span.value.end
    requires i < p.span.value.end <= j < Visible(p.mask) && a < 3 && b < 3
    ensures Id(p, merge, a, i) < Id(p, merge, b, j)
  {
    hide Decode, Visible;
    var start, g := p.span.value.start, Merged(p.image.value, merge);
    if i >= start {
      ThreeAxes(g.t, g.h, g.w, 0, 0, 0);
      EncodeOfDecode([g.t, g.h, g.w], i - start);
    }
  }

  /** What the rows before `done` hold, slot by slot: visible positions their ids, written once; padding 1,
      untouched. */
  lemma FinishedBuffer(data: seq<nat>, writes: seq<nat>, prompts: seq<Prompt>, merge: nat, width: nat, done: nat,
                       axis: nat, row: nat, pos: nat)
    requires merge > 0 && Progress(data, writes, prompts, merge, width, done, 0) && row < done
    requires axis < 3 && row < |prompts| && pos < width
    ensures var slot := Slot(|prompts|, width, axis, row, pos);
            slot < |data|
            && (pos < Visible(prompts[row].mask) ==>
                  data[slot] == Id(prompts[row], merge, axis, pos) && Times(writes, slot) == 1)
            && (pos >= Visible(prompts[row].mask) ==> data[slot] == 1 && Times(writes, slot) == 0)
  {
    hide Id, Decode, Visible, Times;
    SlotInside(|prompts|, width, axis, row, pos);
  }

  /** The first id after the image, in closed form: past the span's start by the longest side of the merged grid, and
      by at least one. */
  lemma FirstIdAfterTheImage(p: Prompt, merge: nat, axis: nat)
    requires merge > 0 && p.span.Some? && RowError(p, merge).None? && p.span.value.start <= p.span.value.end
    requires p.span.value.end < Visible(p.mask) && axis < 3
    ensures IsFirstAfter(Id(p, merge, axis, p.span.value.end), p.span.value.start, p.image.value, merge)
  {
    hide Visible;
  }

  /** `id` is past `start` by the largest of one and the three sides of the merged grid. */
  predicate IsFirstAfter(id: nat, start: nat, image: Grid, merge: nat)
    requires merge > 0
  {
    var t, h, w := image.t, image.h / merge, image.w / merge;
    && id >= start + 1 && id >= start + t && id >= start + h && id >= start + w
    && (id == start + 1 || id == start + t || id == start + h || id == start + w)
  }

  /** Nothing is skipped: some image token has, on some axis, the id just below the first one after the image, and
      later ids count on by one. */
  lemma IdsAfterTheImageAreTight(p: Prompt, merge: nat) returns (i: nat, a: nat)
    requires merge > 0 && p.span.Some? && RowError(p, merge).None?
    requires p.span.value.start < p.span.value.end < Visible(p.mask)
    ensures p.span.value.start <= i < p.span.value.end && a < 3
    ensures forall b: nat | b < 3 :: Id(p, merge, b, p.span.value.end) == Id(p, merge, a, i) + 1
    ensures forall b: nat, j: nat | b < 3 && p.span.value.end <= j < Visible(p.mask) ::
              Id(p, merge, b, j) == Id(p, merge, b, p.span.value.end) + (j - p.span.value.end)
  {
    hide Decode, Visible;
    var start, g := p.span.value.start, Merged(p.image.value, merge);
    SidesArePositive(g.t, g.h, g.w);
    var t: nat, h: nat, w: nat;
    if Largest(g) == g.t {
      a, t, h, w := 0, g.t - 1, 0, 0;
    } else if Largest(g) == g.h {
      a, t, h, w := 1, 0, g.h - 1, 0;
    } else {
      a, t, h, w := 2, 0, 0, g.w - 1;
    }
    ImageIdsAt(p, merge, g, t, h, w);
    i := start + ((t * g.h + h) * g.w + w);
    CubeDecoded(t, h, w, g.t, g.h, g.w);
  }

  lemma SidesArePositive(t: nat, h: nat, w: nat)
    requires t * h * w > 0
    ensures t > 0 && h > 0 && w > 0
  {
    assert t == 0 || h == 0 ==> t * h == 0;
  }

  // ---------- the finished buffer, on its own ----------

  /** What the buffer holds for one axis of one position. */
  function Held(data: seq<nat>, batch: nat, width: nat, axis: nat, row: nat, pos: nat): nat
    requires |data| == 3 * batch * width && axis < 3 && row < batch && pos < width
  {
    SlotInside(batch, width, axis, row, pos);
    data[(axis * batch + row) * width + pos]
  }

  /** The three axes of one position hold these three ids. */
  ghost predicate HoldsIds(data: seq<nat>, batch: nat, width: nat, row: nat, pos: int, t: nat, h: nat, w: nat)
    requires |data| == 3 * batch * width && row < batch
  {
    && 0 <= pos < width && Held(data, batch, width, 0, row, pos) == t
    && Held(data, batch, width, 1, row, pos) == h && Held(data, batch, width, 2, row, pos) == w
  }

  /** What one row of the buffer should hold: text before the image its position, the image its place in the merged
      grid past the span's start, text after it ids that count on from the least one above all before, padding 1. */
  ghost predicate RowIsRight(data: seq<nat>, batch: nat, width: nat, row: nat, p: Prompt, merge: nat)
    requires merge > 0 && |data| == 3 * batch * width && row < batch
  {
    var n := Visible(p.mask);
    && n <= width
    && (forall pos: nat | n <= pos < width :: HoldsIds(data, batch, width, row, pos, 1, 1, 1))
    && (p.span.None? ==> forall pos: nat | pos < n :: HoldsIds(data, batch, width, row, pos, pos, pos, pos))
    && (p.span.Some? && p.image.Some? ==>
          ImageRowIsRight(data, batch, width, row, n, p.span.value, p.image.value, merge))
  }

  ghost predicate ImageRowIsRight(data: seq<nat>, batch: nat, width: nat, row: nat, n: nat, span: Span, image: Grid,
                                  merge: nat)
    requires merge > 0 && |data| == 3 * batch * width && row < batch && n <= width
  {
    && (forall pos: nat | pos < span.start :: HoldsIds(data, batch, width, row, pos, pos, pos, pos))
    && (forall t: nat, h: nat, w: nat | t < image.t && h < image.h / merge && w < image.w / merge ::
          HoldsToken(data, batch, width, row, span.start, image.h / merge, image.w / merge, t, h, w))
    && (span.end < n ==> RestIsRight(data, batch, width, row, n, span, image, merge))
  }

  /** The image token at frame `t`, row `h` and column `w` of a grid `bh` by `bw` has that place as its ids. */
  ghost predicate HoldsToken(data: seq<nat>, batch: nat, width: nat, row: nat, start: nat, bh: nat, bw: nat, t: nat,
                             h: nat, w: nat)
    requires |data| == 3 * batch * width && row < batch
  {
    HoldsIds(data, batch, width, row, start + ((t * bh + h) * bw + w), start + t, start + h, start + w)
  }

  /** After the image the ids count on by one on all axes, from one more than the largest id so far. */
  ghost predicate RestIsRight(data: seq<nat>, batch: nat, width: nat, row: nat, n: nat, span: Span, image: Grid,
                              merge: nat)
    requires merge > 0 && |data| == 3 * batch * width && row < batch && span.end < n <= width
  {
    var first := Held(data, batch, width, 0, row, span.end);
    && IsFirstAfter(first, span.start, image, merge)
    && (forall i: nat, a: nat | i < span.end && a < 3 :: Held(data, batch, width, a, row, i) < first)
    && (span.start < span.end ==>
          exists i: nat, a: nat :: i < span.end && a < 3 && first == Held(data, batch, width, a, row, i) + 1)
    && forall pos: nat | span.end <= pos < n :: CountsOn(data, batch, width, row, span.end, first, pos)
  }

  ghost predicate CountsOn(data: seq<nat>, batch: nat, width: nat, row: nat, end: nat, first: nat, pos: nat)
    requires |data| == 3 * batch * width && row < batch && end <= pos
  {
    HoldsIds(data, batch, width, row, pos, first + (pos - end), first + (pos - end), first + (pos - end))
  }

  lemma HeldIsId(data: seq<nat>, writes: seq<nat>, prompts: seq<Prompt>, merge: nat, width: nat, done: nat, axis: nat,
                 row: nat, pos: nat)
    requires merge > 0 && Progress(data, writes, prompts, merge, width, done, 0) && row < done
    requires |data| == 3 * |prompts| * width && axis < 3 && row < |prompts| && pos < width
    ensures Held(data, |prompts|, width, axis, row, pos) == Id(prompts[row], merge, axis, pos)
  {
    hide Progress, Decode, Visible, Times;
    FinishedBuffer(data, writes, prompts, merge, width, done, axis, row, pos);
  }

  lemma IdsHeld(data: seq<nat>, writes: seq<nat>, prompts: seq<Prompt>, merge: nat, width: nat, done: nat, row: nat,
                pos: nat)
    requires merge > 0 && Progress(data, writes, prompts, merge, width, done, 0) && row < done
    requires |data| == 3 * |prompts| * width && row < |prompts| && pos < width
    ensures var p := prompts[row];
            HoldsIds(data, |prompts|, width, row, pos, Id(p, merge, 0, pos), Id(p, merge, 1, pos), Id(p, merge, 2, pos))
  {
    hide Progress, Id, Held;
    HeldIsId(data, writes, prompts, merge, width, done, 0, row, pos);
    HeldIsId(data, writes, prompts, merge, width, done, 1, row, pos);
    HeldIsId(data, writes, prompts, merge, width, done, 2, row, pos);
  }

  lemma RestOfRowIsRight(data: seq<nat>, writes: seq<nat>, prompts: seq<Prompt>, merge: nat, width: nat, done: nat,
                         row: nat)
    requires merge > 0 && Progress(data, writes, prompts, merge, width, done, 0) && row < done
    requires |data| == 3 * |prompts| * width && row < |prompts| && Visible(prompts[row].mask) <= width
    requires var p := prompts[row];
             p.span.Some? && RowError(p, merge).None? && p.span.value.start <= p.span.value.end < Visible(p.mask)
    ensures var p := prompts[row];
            RestIsRight(data, |prompts|, width, row, Visible(p.mask), p.span.value, p.image.value, merge)
  {
    hide Progress, Id, Held, HoldsIds, Visible, IsFirstAfter, IdAfterImage;
    var p := prompts[row];
    var start, end := p.span.value.start, p.span.value.end;
    var first := Held(data, |prompts|, width, 0, row, end);
    FirstIdAfterTheImage(p, merge, 0);
    HeldIsId(data, writes, prompts, merge, width, done, 0, row, end);
    TextIdsAfter(p, merge, IdAfterImage(start, Merged(p.image.value, merge)));
    forall i: nat, a: nat | i < end && a < 3 ensures Held(data, |prompts|, width, a, row, i) < first {
      HeldIsId(data, writes, prompts, merge, width, done, a, row, i);
      IdsAfterTheImageAreLarger(p, merge, i, end, a, 0);
    }
    if start < end {
      var i, a := IdsAfterTheImageAreTight(p, merge);
      HeldIsId(data, writes, prompts, merge, width, done, a, row, i);
    }
    forall pos: nat | end <= pos < Visible(p.mask) ensures CountsOn(data, |prompts|, width, row, end, first, pos) {
      IdsHeld(data, writes, prompts, merge, width, done, row, pos);
    }
  }

  lemma ImageTokenIsRight(data: seq<nat>, writes: seq<nat>, prompts: seq<Prompt>, merge: nat, width: nat, done: nat,
                          row: nat, t: nat, h: nat, w: nat)
    requires merge > 0 && Progress(data, writes, prompts, merge, width, done, 0) && row < done
    requires |data| == 3 * |prompts| * width && row < |prompts| && Visible(prompts[row].mask) <= width
    requires var p := prompts[row]; p.span.Some? && RowError(p, merge).None? && p.span.value.start <= p.span.value.end
    requires var g := Merged(prompts[row].image.value, merge); t < g.t && h < g.h && w < g.w
    ensures var start, g := prompts[row].span.value.start, Merged(prompts[row].image.value, merge);
            HoldsToken(data, |prompts|, width, row, start, g.h, g.w, t, h, w)
  {
    hide Progress, Id, HoldsIds, Visible;
    var start, g := prompts[row].span.value.start, Merged(prompts[row].image.value, merge);
    ImageIdsAt(prompts[row], merge, g, t, h, w);
    IdsHeld(data, writes, prompts, merge, width, done, row, start + ((t * g.h + h) * g.w + w));
  }

  lemma ImageRowRight(data: seq<nat>, writes: seq<nat>, prompts: seq<Prompt>, merge: nat, width: nat, done: nat,
                      row: nat)
    requires merge > 0 && Progress(data, writes, prompts, merge, width, done, 0) && row < done
    requires |data| == 3 * |prompts| * width && row < |prompts| && Visible(prompts[row].mask) <= width
    requires var p := prompts[row]; p.span.Some? && RowError(p, merge).None? && p.span.value.start <= p.span.value.end
    ensures var p := prompts[row];
            ImageRowIsRight(data, |prompts|, width, row, Visible(p.mask), p.span.value, p.image.value, merge)
  {
    hide Progress, Id, Visible, HoldsIds, HoldsToken, RestIsRight;
    var p := prompts[row];
    var start, g := p.span.value.start, Merged(p.image.value, merge);
    TextIdsBefore(p, merge, start);
    forall pos: nat | pos < start ensures HoldsIds(data, |prompts|, width, row, pos, pos, pos, pos) {
      IdsHeld(data, writes, prompts, merge, width, done, row, pos);
    }
    forall t: nat, h: nat, w: nat | t < g.t && h < g.h && w < g.w
      ensures HoldsToken(data, |prompts|, width, row, start, g.h, g.w, t, h, w)
    {
      ImageTokenIsRight(data, writes, prompts, merge, width, done, row, t, h, w);
    }
    if p.span.value.end < Visible(p.mask) {
      RestOfRowIsRight(data, writes, prompts, merge, width, done, row);
    }
  }

  /** Every finished row holds what it should. */
  lemma FinishedRowIsRight(data: seq<nat>, writes: seq<nat>, prompts: seq<Prompt>, merge: nat, width: nat, done: nat,
                           row: nat)
    requires merge > 0 && Progress(data, writes, prompts, merge, width, done, 0) && row < done
    requires |data| == 3 * |prompts| * width && row < |prompts| && |prompts[row].mask| == width
    requires var p := prompts[row];
             RowError(p, merge).None? && (p.span.Some? ==> p.span.value.start <= p.span.value.end)
    ensures RowIsRight(data, |prompts|, width, row, prompts[row], merge)
  {
    hide Progress, Id, Visible, HoldsIds, ImageRowIsRight;
    var p := prompts[row];
    var n := Visible(p.mask);
    PaddingIds(p, merge);
    forall pos: nat | n <= pos < width ensures HoldsIds(data, |prompts|, width, row, pos, 1, 1, 1) {
      IdsHeld(data, writes, prompts, merge, width, done, row, pos);
    }
    if p.span.None? {
      TextIdsBefore(p, merge, n);
      forall pos: nat | pos < n ensures HoldsIds(data, |prompts|, width, row, pos, pos, pos, pos) {
        IdsHeld(data, writes, prompts, merge, width, done, row, pos);
      }
    } else {
      ImageRowRight(data, writes, prompts, merge, width, done, row);
    }
  }

  lemma PaddingIds(p: Prompt, merge: nat)
    requires merge > 0
    ensures forall pos: nat, axis: nat | Visible(p.mask) <= pos && axis < 3 :: Id(p, merge, axis, pos) == 1
  {
  }
}
