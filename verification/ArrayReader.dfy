/** Reading a JSON array of objects from chunks of text. */
module ArrayReader {
  import opened Wrappers
  import opened JsonScan
  import opened Sequences

  const BOUND: nat := 2_000_000

  // ---------- one buffer ----------

  predicate IsFiller(c: char) { c in " \r\n\t[," }

  function StripFiller(s: string): (r: string)
    ensures |r| <= |s| && (r != "" ==> !IsFiller(r[0]))
  {
    if s != "" && IsFiller(s[0]) then StripFiller(s[1..]) else s
  }

  /** What a buffer yields: a value that is not an object, or records and the text that is left over. */
  datatype Drained = NotObject | Stuck(records: seq<string>, rest: string)

  function Prepend(records: seq<string>, d: Drained): Drained {
    if d.NotObject? then d else Stuck(records + d.records, d.rest)
  }

  /** Decoding records for as long as the text starts with a complete value. */
  function Drain(text: string): Drained
    decreases |text|
  {
    var s := StripFiller(text);
    if s == "" || s[0] == ']' then Stuck([], s)
    else
      match Decode(s)
      case None => Stuck([], s)
      case Some(end) => if s[0] != '{' then NotObject else Prepend([s[..end]], Drain(s[end..]))
  }

  lemma {:induction false} StripMore(s: string, t: string)
    ensures StripFiller(s + t) == if StripFiller(s) == "" then StripFiller(t) else StripFiller(s) + t
  {
    if s != "" && IsFiller(s[0]) {
      assert (s + t)[1..] == s[1..] + t;
      StripMore(s[1..], t);
    } else if s == "" {
      assert s + t == t;
    }
  }

  lemma StripAgain(s: string, t: string)
    ensures StripFiller(StripFiller(s) + t) == StripFiller(s + t)
  {
    StripMore(s, t);
    StripMore(StripFiller(s), t);
  }

  /** Draining in two steps: what is left over is drained again with the text that follows. */
  lemma {:induction false} DrainMore(s: string, t: string)
    ensures Drain(s + t) == match Drain(s)
                            case NotObject => NotObject
                            case Stuck(records, rest) => Prepend(records, Drain(rest + t))
    decreases |s|
  {
    var b := StripFiller(s);
    StripMore(s, t);
    StripAgain(s, t);
    if b == "" || b[0] == ']' || Decode(b).None? {
      assert Drain(s) == Stuck([], b);
      assert Drain(b + t) == Drain(s + t);
      NothingFirst(Drain(b + t));
    } else {
      var end := Decode(b).value;
      assert b <= b + t;
      DecodeMore(b, b + t);
      if b[0] == '{' {
        assert (b + t)[end..] == b[end..] + t && (b + t)[..end] == b[..end];
        DrainMore(b[end..], t);
        PrependTwice([b[..end]], Drain(b[end..]), t);
      }
    }
  }

  lemma NothingFirst(d: Drained)
    ensures Prepend([], d) == d
  {
    if d.Stuck? { assert [] + d.records == d.records; }
  }

  lemma PrependTwice(first: seq<string>, d: Drained, t: string)
    ensures d.Stuck? ==>
      Prepend(first, Prepend(d.records, Drain(d.rest + t))) == Prepend(first + d.records, Drain(d.rest + t))
  {
    hide Drain;
    if d.Stuck? {
      var e := Drain(d.rest + t);
      if e.Stuck? { assert first + (d.records + e.records) == (first + d.records) + e.records; }
    }
  }

  // ---------- chunks ----------

  /** After this much text the left-over buffer is longer than allowed. */
  predicate Overfull(text: string) {
    Drain(text).Stuck? && |Drain(text).rest| > 2_000_000
  }

  /** The wanted records with their row numbers. */
  function Selected(records: seq<string>, wanted: string -> bool): seq<(nat, string)> {
    if records == [] then []
    else
      var last := |records| - 1;
      Selected(records[..last], wanted) + if wanted(records[last]) then [(last, records[last])] else []
  }

  /** Every wanted record, and no other, is selected once, with its row number, in the order of the rows. */
  lemma {:induction false} SelectedExactly(records: seq<string>, wanted: string -> bool)
    ensures forall i: nat, r: string ::
      (i, r) in Selected(records, wanted) <==> i < |records| && r == records[i] && wanted(r)
    ensures forall j, k :: 0 <= j < k < |Selected(records, wanted)| ==>
      Selected(records, wanted)[j].0 < Selected(records, wanted)[k].0
  {
    if records != [] {
      var last := |records| - 1;
      var front := Selected(records[..last], wanted);
      SelectedExactly(records[..last], wanted);
      forall j | 0 <= j < |front| ensures front[j].0 < last { assert (front[j].0, front[j].1) in front; }
      if wanted(records[last]) { assert (front + [(last, records[last])])[|front|] == (last, records[last]); }
    }
  }

  datatype Outcome = NonObject | TooLong | Read(entries: seq<(nat, string)>, count: nat, rest: string)

  function Result(d: Drained, wanted: string -> bool): Outcome {
    if d.NotObject? then NonObject else Read(Selected(d.records, wanted), |d.records|, d.rest)
  }

  /** The inner loop: takes records off the buffer until it is stuck. `before` are the records taken so far. */
  method TakeRecords(start: string, wanted: string -> bool, entries: seq<(nat, string)>, index: nat,
      ghost before: seq<string>)
    returns (ok: bool, buffer: string, entries': seq<(nat, string)>, index': nat)
    requires index == |before| && entries == Selected(before, wanted)
    ensures ok == Drain(start).Stuck?
    ensures ok ==>
      var all := before + Drain(start).records;
      buffer == Drain(start).rest && index' == |all| && entries' == Selected(all, wanted)
  {
    hide Decode, Drain, Selected;
    buffer, entries', index' := start, entries, index;
    ghost var all := before;
    assert before + [] == before;
    NothingFirst(Drain(start));
    while true
      invariant before <= all && Drain(start) == Prepend(all[|before|..], Drain(buffer))
      invariant index' == |all| && entries' == Selected(all, wanted)
      decreases |buffer|
    {
      DrainOnce(buffer);
      buffer := StripFiller(buffer);
      if buffer == "" || buffer[0] == ']' { break; }
      var end := Decode(buffer);
      if end.None? { break; }
      if buffer[0] != '{' { return false, buffer, entries', index'; }
      var record := buffer[..end.value];
      SelectOne(all, record, wanted);
      if wanted(record) { entries' := entries' + [(index', record)]; }
      buffer := buffer[end.value..];
      index' := index' + 1;
      PrependMore(all[|before|..], record, Drain(buffer));
      assert (all + [record])[|before|..] == all[|before|..] + [record];
      all := all + [record];
    }
    assert all == before + all[|before|..];
    assert all[|before|..] + [] == all[|before|..];
    ok := true;
  }

  /** One turn of the inner loop. */
  lemma DrainOnce(text: string)
    ensures var s := StripFiller(text);
      if s == "" || s[0] == ']' || Decode(s).None? then Drain(text) == Stuck([], s)
      else if s[0] != '{' then Drain(text) == NotObject
      else Drain(text) == Prepend([s[..Decode(s).value]], Drain(s[Decode(s).value..]))
  {
    hide Decode;
  }

  lemma SelectOne(records: seq<string>, record: string, wanted: string -> bool)
    ensures Selected(records + [record], wanted) ==
            Selected(records, wanted) + if wanted(record) then [(|records|, record)] else []
  {
    assert (records + [record])[..|records|] == records;
  }

  lemma PrependMore(taken: seq<string>, record: string, d: Drained)
    ensures Prepend(taken, Prepend([record], d)) == Prepend(taken + [record], d)
  {
    if d.Stuck? { assert taken + ([record] + d.records) == (taken + [record]) + d.records; }
  }

  /** The reading loop over the chunks. */
  method ReadArray(chunks: seq<string>, wanted: string -> bool) returns (r: Outcome)
    ensures r.TooLong? <==> exists k :: 1 <= k <= |chunks| && Overfull(Flatten(chunks[..k]))
    ensures !r.TooLong? ==> r == Result(Drain(Flatten(chunks)), wanted)
  {
    hide Drain;
    var buffer, index, entries := "", 0, [];
    ghost var records: seq<string> := [];
    NothingYet();
    assert chunks[..0] == [];
    for i := 0 to |chunks|
      invariant Drain(Flatten(chunks[..i])) == Stuck(records, buffer) && index == |records| &&
        entries == Selected(records, wanted)
      invariant forall k :: 1 <= k <= i ==> !Overfull(Flatten(chunks[..k]))
    {
      ghost var text := Flatten(chunks[..i]);
      assert chunks[..i + 1] == chunks[..i] + [chunks[i]] && chunks[..i + 1][..i] == chunks[..i];
      DrainMore(text, chunks[i]);
      var ok;
      ghost var taken := Drain(buffer + chunks[i]);
      ok, buffer, entries, index := TakeRecords(buffer + chunks[i], wanted, entries, index, records);
      if !ok {
        StaysBad(chunks, i + 1);
        return NonObject;
      }
      records := records + taken.records;
      if |buffer| > BOUND { return TooLong; }
    }
    assert chunks[..|chunks|] == chunks;
    r := Read(entries, index, buffer);
  }

  lemma NothingYet()
    ensures Drain("") == Stuck([], "")
  {
  }

  /** Once a value was not an object, no later text changes that. */
  lemma {:induction false} StaysBad(chunks: seq<string>, i: nat)
    requires i <= |chunks| && Drain(Flatten(chunks[..i])).NotObject?
    ensures forall k :: i <= k <= |chunks| ==> Drain(Flatten(chunks[..k])).NotObject?
    ensures Drain(Flatten(chunks)).NotObject?
    decreases |chunks| - i
  {
    hide Drain;
    assert chunks[..|chunks|] == chunks;
    if i < |chunks| {
      assert chunks[..i + 1] == chunks[..i] + [chunks[i]] && chunks[..i + 1][..i] == chunks[..i];
      DrainMore(Flatten(chunks[..i]), chunks[i]);
      StaysBad(chunks, i + 1);
    }
  }

  // ---------- what follows ----------

  /** What is left over is stripped, and starts no complete value. */
  predicate IsStuck(b: string) {
    b == StripFiller(b) && (b == "" || b[0] == ']' || Decode(b).None?)
  }

  lemma {:induction false} RestIsStuck(text: string)
    requires Drain(text).Stuck?
    ensures IsStuck(Drain(text).rest)
    decreases |text|
  {
    hide Decode;
    var s := StripFiller(text);
    StripMore(text, "");
    assert text + "" == text && s + "" == s;
    StripAgain(text, "");
    if s != "" && s[0] != ']' && Decode(s).Some? { RestIsStuck(s[Decode(s).value..]); }
  }

  /** A stuck buffer is part of what is left over in the end, or of a record longer than it. */
  lemma StuckIsPart(b: string, t: string)
    requires IsStuck(b) && b != "" && Drain(b + t).Stuck?
    ensures var d := Drain(b + t); |b| <= |d.rest| || (d.records != [] && |b| < |d.records[0]|)
  {
    StripMore(b, t);
    if b[0] != ']' && Decode(b + t).Some? && Decode(b + t).value <= |b| { DecodeLess(b, b + t); }
  }

  /** The bound is never hit on a text of records that fit it, however it is cut: `p` is what has been read. */
  lemma FittingNeverOverfull(p: string, t: string)
    requires Drain(p + t).Stuck? && |Drain(p + t).rest| <= BOUND
    requires forall i :: 0 <= i < |Drain(p + t).records| ==> |Drain(p + t).records[i]| <= BOUND + 1
    ensures !Overfull(p)
  {
    hide Drain, IsStuck;
    DrainMore(p, t);
    if Drain(p).Stuck? && Drain(p).rest != "" {
      var b, d := Drain(p).rest, Drain(Drain(p).rest + t);
      RestIsStuck(p);
      StuckIsPart(b, t);
      if d.records != [] { assert Drain(p + t).records[|Drain(p).records|] == d.records[0]; }
    }
  }
}
