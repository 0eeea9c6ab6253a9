/** Stretches of a buffer that consist of whole records. */
module BProtoWindow {
  import opened Bytes
  import opened BProtoSpec
  import Lists

  /** The records from offset `a` to offset `b`, if both are record boundaries. */
  function Between(s: seq<byte>, a: nat, b: nat): Option<seq<Rec>>
    requires b <= |s|
    decreases b - a
  {
    if a == b then Some([])
    else if a > b then None
    else
      var h := ParseRec(s[a..]);
      if h.None? then None
      else
        var t := Between(s, a + h.value.Size(), b);
        if t.None? then None else Some([h.value] + t.value)
  }

  lemma {:induction false} BetweenIsRecords(s: seq<byte>, a: nat)
    requires a <= |s|
    ensures Between(s, a, |s|) == Records(s[a..])
    decreases |s| - a
  {
    hide ParseRec;
    if a < |s| {
      var h := ParseRec(s[a..]);
      if h.Some? {
        BetweenIsRecords(s, a + h.value.Size());
        assert s[a..][h.value.Size()..] == s[a + h.value.Size()..];
      }
    }
  }

  lemma {:induction false} Join(s: seq<byte>, a: nat, b: nat, c: nat)
    requires b <= c <= |s| && Between(s, a, b).Some? && Between(s, b, c).Some?
    ensures Between(s, a, c) == Some(Between(s, a, b).value + Between(s, b, c).value)
    decreases b - a
  {
    hide ParseRec;
    if a == b {
      assert [] + Between(s, b, c).value == Between(s, b, c).value;
    } else {
      BetweenUpTo(s, a, b);
      var h := ParseRec(s[a..]).value;
      Join(s, a + h.Size(), b, c);
      var x, y := Between(s, a + h.Size(), b).value, Between(s, b, c).value;
      assert [h] + (x + y) == ([h] + x) + y;
    }
  }

  lemma BetweenUpTo(s: seq<byte>, a: nat, b: nat)
    requires b <= |s| && Between(s, a, b).Some?
    ensures a <= b
    ensures a < b ==> ParseRec(s[a..]).Some? && Between(s, a + ParseRec(s[a..]).value.Size(), b).Some? &&
                      Between(s, a, b).value == [ParseRec(s[a..]).value] + Between(s, a + ParseRec(s[a..]).value.Size(), b).value
    ensures a < b ==> a + ParseRec(s[a..]).value.Size() <= b
  {
    if a < b {
      var n := a + ParseRec(s[a..]).value.Size();
      assert Between(s, n, b).Some?;
    }
  }

  lemma One(s: seq<byte>, a: nat)
    requires a <= |s| && ParseRec(s[a..]).Some?
    ensures var r := ParseRec(s[a..]).value; a + r.Size() <= |s| && Between(s, a, a + r.Size()) == Some([r])
  {
    var r := ParseRec(s[a..]).value;
    hide ParseRec;
    assert Between(s, a + r.Size(), a + r.Size()) == Some([]);
    assert [r] + [] == [r];
  }

  lemma {:induction false} ValuesAppend(x: seq<Rec>, y: seq<Rec>, f: Field)
    ensures ValuesOf(x + y, f) == ValuesOf(x, f) + ValuesOf(y, f)
  {
    hide Matches;
    if x == [] {
      assert x + y == y;
    } else {
      ValuesAppend(x[1..], y, f);
      assert (x + y)[1..] == x[1..] + y;
      Lists.Assoc(if Matches(f, x[0]) then [x[0].body] else [], ValuesOf(x[1..], f), ValuesOf(y, f));
    }
  }

  lemma ValuesOne(r: Rec, f: Field)
    ensures ValuesOf([r], f) == if Matches(f, r) then [r.body] else []
  {
    hide Matches;
    assert ValuesOf([r][1..], f) == [];
  }

  /**
   The stretch of a field after the records up to `end`: it starts at the field's first record and ends after its last
   one; `n` stands for "none yet".
   */
  ghost predicate Stretch(s: seq<byte>, n: nat, end: nat, f: Field, start: nat, span: nat) {
    && end <= |s| && Between(s, 0, end).Some?
    && if span == 0 then start == n && ValuesOf(Between(s, 0, end).value, f) == []
       else
         && start + span <= end && start < n
         && Between(s, 0, start).Some? && ValuesOf(Between(s, 0, start).value, f) == []
         && EndsWith(s, start, start + span, f)
         && Between(s, start + span, end).Some? && ValuesOf(Between(s, start + span, end).value, f) == []
  }

  /** From `a` to `b` there are whole records, the last of which belongs to `f`. */
  ghost predicate EndsWith(s: seq<byte>, a: nat, b: nat, f: Field) {
    && b <= |s| && Between(s, a, b).Some?
    && var w := Between(s, a, b).value;
    w != [] && Matches(f, w[|w| - 1])
  }

  lemma StretchValues(s: seq<byte>, n: nat, end: nat, f: Field, start: nat, span: nat)
    requires Stretch(s, n, end, f, start, span)
    ensures start + span <= |s| || span == 0
    ensures span > 0 ==> ValuesOf(Between(s, 0, end).value, f) == ValuesOf(Between(s, start, start + span).value, f)
  {
    hide ValuesOf, Matches;
    if span > 0 {
      var a, w, c := Between(s, 0, start).value, Between(s, start, start + span).value, Between(s, start + span, end).value;
      Join(s, 0, start, start + span);
      Join(s, 0, start + span, end);
      ValuesAppend(a, w, f);
      ValuesAppend(a + w, c, f);
      hide Between;
      assert [] + ValuesOf(w, f) + [] == ValuesOf(w, f);
    }
  }

  /** A record of another field leaves the stretch alone. */
  lemma StretchSkip(s: seq<byte>, n: nat, end: nat, f: Field, start: nat, span: nat)
    requires Stretch(s, n, end, f, start, span) && end < |s| && ParseRec(s[end..]).Some?
    requires !Matches(f, ParseRec(s[end..]).value)
    ensures Stretch(s, n, end + ParseRec(s[end..]).value.Size(), f, start, span)
  {
    hide ValuesOf, Matches, ParseRec, EndsWith;
    var r := ParseRec(s[end..]).value;
    One(s, end);
    ValuesOne(r, f);
    Join(s, 0, end, end + r.Size());
    if span == 0 {
      ValuesAppend(Between(s, 0, end).value, [r], f);
    } else {
      Join(s, start + span, end, end + r.Size());
      ValuesAppend(Between(s, start + span, end).value, [r], f);
    }
  }

  /** A record of the field starts the stretch or extends it over everything in between. */
  lemma StretchTake(s: seq<byte>, n: nat, end: nat, f: Field, start: nat, span: nat)
    requires Stretch(s, n, end, f, start, span) && end < n <= |s| && ParseRec(s[end..]).Some?
    requires Matches(f, ParseRec(s[end..]).value)
    ensures var r := ParseRec(s[end..]).value;
            var start' := if start == n then end else start;
            start' <= end && Stretch(s, n, end + r.Size(), f, start', end + r.Size() - start')
  {
    hide ValuesOf, Matches, ParseRec;
    var r := ParseRec(s[end..]).value;
    var e := end + r.Size();
    One(s, end);
    Join(s, 0, end, e);
    assert Between(s, e, e) == Some([]);
    assert ValuesOf([], f) == [] by { NoValues(f); }
    if span > 0 {
      Join(s, start, start + span, end);
      Join(s, start, end, e);
    }
  }

  lemma NoValues(f: Field)
    ensures ValuesOf([], f) == []
  {
  }

  /** Reading position `pos` of a field whose stretch is [start, start + span). */
  ghost predicate Cursor(s: seq<byte>, f: Field, start: nat, span: nat, pos: nat) {
    && pos <= span
    && (span > 0 ==> start + span <= |s|)
    && (pos < span ==> Between(s, 0, start + pos).Some? && EndsWith(s, start + pos, start + span, f))
  }

  /** What is still to be read. */
  function Unread(s: seq<byte>, f: Field, start: nat, span: nat, pos: nat): seq<seq<byte>>
    requires Cursor(s, f, start, span, pos)
  {
    if pos == span then [] else ValuesOf(Between(s, start + pos, start + span).value, f)
  }

  /** A field is exhausted exactly if its position has reached the end of its stretch. */
  lemma ExhaustedIff(s: seq<byte>, f: Field, start: nat, span: nat, pos: nat)
    requires Cursor(s, f, start, span, pos)
    ensures Unread(s, f, start, span, pos) == [] <==> pos == span
  {
    hide ValuesOf, Matches;
    if pos < span {
      var w := Between(s, start + pos, start + span).value;
      var front, last := w[..|w| - 1], w[|w| - 1];
      assert w == front + [last];
      ValuesAppend(front, [last], f);
      ValuesOne(last, f);
    }
  }

  /** One record read: the cursor stays on a boundary, and the record is the next unread value if it is the field's. */
  lemma CursorStep(s: seq<byte>, f: Field, start: nat, span: nat, pos: nat)
    requires Cursor(s, f, start, span, pos) && pos < span
    ensures start + pos <= |s| && ParseRec(s[start + pos..]).Some?
    ensures var r := ParseRec(s[start + pos..]).value;
            && Cursor(s, f, start, span, pos + r.Size())
            && Unread(s, f, start, span, pos) == (if Matches(f, r) then [r.body] else []) + Unread(s, f, start, span, pos + r.Size())
  {
    hide Matches, ParseRec;
    var a, b := start + pos, start + span;
    BetweenUpTo(s, a, b);
    var r := ParseRec(s[a..]).value;
    One(s, a);
    Join(s, 0, a, a + r.Size());
    var w, t := Between(s, a, b).value, Between(s, a + r.Size(), b).value;
    assert w[1..] == t;
    if a + r.Size() < b {
      BetweenUpTo(s, a + r.Size(), b);
      assert t != [];
      assert w[|w| - 1] == t[|t| - 1];
    } else {
      assert t == [] && w == [r];
      ValuesOne(r, f);
    }
  }
}
