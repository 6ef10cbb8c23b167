/**
 * The tagged literal `#name value` (types.go:55-104): its text and encoded
 * forms, and the scanner in `UnmarshalEDN` that finds where the tag name ends
 * and hands the rest of the buffer to the generic decoder.
 *
 * `Marshal`, `Unmarshal` and `fmt`'s `%s` are foreign to this file and are
 * parameters here; so is the lexer (see module Lexer).
 */
module Tags {
  import opened GoBase
  import opened Lexer

  /**
   * How the scan ends: stopped on an EndPrev rune `at`, with the two offsets
   * it kept, or aborted with the error `UnmarshalEDN` returns.
   */
  datatype ScanOutcome = Stopped(start: nat, endTag: nat, at: nat) | Aborted(error: Error)

  /** What `UnmarshalEDN` returns: nil, an error, or a run-time panic of the name slice. */
  datatype Status = Done | Failed(error: Error) | Panicked

  /**
   * The scan in closed form: it stops at the first rune that is neither
   * Ignore nor Cont; `start` is the ignored bytes before it and `endTag` the
   * offset of that rune. Running out of runes first is the reader's EOF.
   */
  function ScanSpec<S>(lx: Lexer<S>, runes: seq<RuneRead>): (sc: ScanOutcome)
    ensures sc.Stopped? ==> sc.at < |runes| && sc.start <= sc.endTag
    ensures sc.Stopped? ==> sc.endTag + runes[sc.at].size <= Offset(runes, |runes|)
  {
    var k := FirstStop(lx, runes, 0);
    if k == |runes| then Aborted(EOF)
    else
      match ClassAt(lx, runes, k)
      case EndPrev =>
        IgnoredWithinOffset(lx, runes, k);
        OffsetMonotone(runes, k + 1, |runes|);
        Stopped(IgnoredLength(lx, runes, k), Offset(runes, k), k)
      case Error => Aborted(lx.err(StateAfter(lx, runes, k + 1)))
      case End => Aborted(ErrUnexpected)
      case Cont | Ignore => assert false; Aborted(EOF)
  }

  /**
   * The scanning loop of `UnmarshalEDN`: a fresh lexer classifies one rune
   * per read; Ignore advances `start` and `endTag`, Cont only `endTag`,
   * EndPrev stops without consuming, Error and End abort, and a read past
   * the last rune aborts with EOF.
   */
  method ScanTagName<S>(lx: Lexer<S>, runes: seq<RuneRead>) returns (sc: ScanOutcome)
    ensures sc == ScanSpec(lx, runes)
  {
    var state := lx.reset;
    var i, start, endTag := 0, 0, 0;
    while true
      invariant i <= |runes|
      invariant state == StateAfter(lx, runes, i)
      invariant forall j :: 0 <= j < i ==> InName(ClassAt(lx, runes, j))
      invariant start == IgnoredLength(lx, runes, i)
      invariant endTag == Offset(runes, i)
      decreases |runes| - i
    {
      if i == |runes| {
        FirstStopAt(lx, runes, i);
        return Aborted(EOF);
      }
      var rlen := runes[i].size;
      var step := lx.step(state, runes[i].r);
      state := step.0;
      match step.1 {
        case Ignore =>
          start := start + rlen;
          endTag := endTag + rlen;
        case Error =>
          FirstStopAt(lx, runes, i);
          return Aborted(lx.err(state));
        case EndPrev =>
          break;
        case End =>
          FirstStopAt(lx, runes, i);
          return Aborted(ErrUnexpected);
        case Cont =>
          endTag := endTag + rlen;
      }
      i := i + 1;
    }
    FirstStopAt(lx, runes, i);
    sc := Stopped(start, endTag, i);
  }

  /**
   * The scan stops on an EndPrev rune whose predecessors are all Ignore or
   * Cont; `endTag` is that rune's offset, and the payload `bs[endTag..]`
   * starts with the whole of it.
   */
  lemma ScanStoppedShape<S>(lx: Lexer<S>, runes: seq<RuneRead>, bs: seq<byte>)
    requires Tiles(runes, |bs|)
    requires ScanSpec(lx, runes).Stopped?
    ensures var sc := ScanSpec(lx, runes);
            && ClassAt(lx, runes, sc.at) == EndPrev
            && (forall j :: 0 <= j < sc.at ==> InName(ClassAt(lx, runes, j)))
            && sc.start == IgnoredLength(lx, runes, sc.at)
            && sc.endTag == Offset(runes, sc.at)
            && |bs[sc.endTag..]| >= runes[sc.at].size >= 1
  {
  }

  /** The first EndPrev preceded only by Ignore and Cont runes is where the scan stops. */
  lemma ScanStopsAtEndPrev<S>(lx: Lexer<S>, runes: seq<RuneRead>, k: nat)
    requires k < |runes|
    requires forall j :: 0 <= j < k ==> InName(ClassAt(lx, runes, j))
    requires ClassAt(lx, runes, k) == EndPrev
    ensures ScanSpec(lx, runes) == Stopped(IgnoredLength(lx, runes, k), Offset(runes, k), k)
  {
    FirstStopAt(lx, runes, k);
  }

  /**
   * The three ways the scan fails: the lexer's own error on Error, the
   * package's errUnexpected on End, and the reader's EOF when the runes run
   * out before any of Error, End and EndPrev.
   */
  lemma ScanFailures<S>(lx: Lexer<S>, runes: seq<RuneRead>, k: nat)
    requires k <= |runes|
    requires forall j :: 0 <= j < k ==> InName(ClassAt(lx, runes, j))
    ensures k == |runes| ==> ScanSpec(lx, runes) == Aborted(EOF)
    ensures k < |runes| && ClassAt(lx, runes, k) == Error ==>
              ScanSpec(lx, runes) == Aborted(lx.err(StateAfter(lx, runes, k + 1)))
    ensures k < |runes| && ClassAt(lx, runes, k) == End ==> ScanSpec(lx, runes) == Aborted(ErrUnexpected)
  {
    if k == |runes| || !InName(ClassAt(lx, runes, k)) {
      FirstStopAt(lx, runes, k);
    }
  }

  /**
   * The name slice `bs[start+1:endTag]` is in bounds exactly when some rune
   * before the EndPrev was classified Cont; with none, Go panics.
   */
  lemma TagnameDefinedIff<S>(lx: Lexer<S>, runes: seq<RuneRead>, bs: seq<byte>)
    requires Tiles(runes, |bs|)
    requires ScanSpec(lx, runes).Stopped?
    ensures var sc := ScanSpec(lx, runes);
            sc.start + 1 <= sc.endTag <==> exists j :: 0 <= j < sc.at && ClassAt(lx, runes, j) == Cont
  {
    var sc := ScanSpec(lx, runes);
    IgnoredShortIff(lx, runes, sc.at);
    if exists j :: 0 <= j < sc.at && ClassAt(lx, runes, j) != Ignore {
      var j :| 0 <= j < sc.at && ClassAt(lx, runes, j) != Ignore;
      assert InName(ClassAt(lx, runes, j));
    }
  }

  /**
   * What `start` counts: every Ignore rune before the stop, not only those
   * before the sigil. When the lead runes are Ignore and rune `p` (the `#`)
   * is Cont, `start` is the sigil's offset, so that the name slice begins
   * right after it, exactly when every rune between the sigil and the stop
   * is Cont. An Ignore rune inside the name moves the slice's start forward
   * by its length, so the slice then begins inside the name.
   */
  lemma NameFollowsSigilIff<S>(lx: Lexer<S>, runes: seq<RuneRead>, bs: seq<byte>, p: nat, m: nat)
    requires Tiles(runes, |bs|)
    requires p < m < |runes|
    requires forall j :: 0 <= j < p ==> ClassAt(lx, runes, j) == Ignore
    requires ClassAt(lx, runes, p) == Cont
    requires forall j :: p < j < m ==> InName(ClassAt(lx, runes, j))
    requires ClassAt(lx, runes, m) == EndPrev
    ensures ScanSpec(lx, runes).Stopped? && ScanSpec(lx, runes).start >= Offset(runes, p)
    ensures ScanSpec(lx, runes).start == Offset(runes, p) <==>
            forall j :: p < j < m ==> ClassAt(lx, runes, j) == Cont
  {
    assert forall j :: 0 <= j < m ==> InName(ClassAt(lx, runes, j)) by {
      forall j | 0 <= j < m ensures InName(ClassAt(lx, runes, j)) {
        if j > p {
          assert InName(ClassAt(lx, runes, j));
        }
      }
    }
    ScanStopsAtEndPrev(lx, runes, m);
    IgnoredLengthFull(lx, runes, p);
    IgnoredGrowsIff(lx, runes, p, m);
  }

  /** The encoded tag: `#`, the name, one space, then the payload. */
  function TagText(name: seq<byte>, payload: seq<byte>): seq<byte> {
    Bytes("#") + name + [Space] + payload
  }

  /**
   * Encoding then scanning recovers the name: when the lexer ignores a
   * leading run `lead`, takes `#` and the name as Cont runes and reports
   * EndPrev on the space, the scan stops at the space, the name slice is
   * `name` and the decoder is handed the space and the payload.
   */
  lemma TagRoundTrip<S>(lx: Lexer<S>, runes: seq<RuneRead>, lead: seq<byte>, name: seq<byte>, payload: seq<byte>,
                        p: nat, m: nat)
    requires Tiles(runes, |lead + TagText(name, payload)|)
    requires p <= m < |runes|
    requires Offset(runes, p) == |lead| && Offset(runes, m) == |lead| + 1 + |name|
    requires forall j :: 0 <= j < p ==> ClassAt(lx, runes, j) == Ignore
    requires forall j :: p <= j < m ==> ClassAt(lx, runes, j) == Cont
    requires ClassAt(lx, runes, m) == EndPrev
    ensures ScanSpec(lx, runes) == Stopped(|lead|, |lead| + 1 + |name|, m)
    ensures var bs := lead + TagText(name, payload);
            bs[|lead| + 1..|lead| + 1 + |name|] == name && bs[|lead| + 1 + |name|..] == [Space] + payload
  {
    ScanStopsAtEndPrev(lx, runes, m);
    IgnoredLengthFull(lx, runes, p);
    IgnoredLengthFlat(lx, runes, p, m);
    var bs := lead + TagText(name, payload);
    assert bs == (lead + Bytes("#")) + name + ([Space] + payload);
  }

  /** `Tag`: a name and an arbitrary payload; `UnmarshalEDN` fills one in place. */
  class Tag<V> {
    var Tagname: seq<byte>
    var Value: V

    constructor (name: seq<byte>, value: V)
      ensures Tagname == name && Value == value
    {
      Tagname := name;
      Value := value;
    }

    /** `fmt.Sprintf("#%s %s", t.Tagname, t.Value)`, with `%s` of the payload as `formatS`. */
    function String(formatS: V -> seq<byte>): (s: seq<byte>)
      reads this
      ensures |s| == |Tagname| + 2 + |formatS(Value)|
      ensures s[0] == '#' as int as byte && s[1 + |Tagname|] == Space
      ensures s[1..1 + |Tagname|] == Tagname && s[2 + |Tagname|..] == formatS(Value)
    {
      TagText(Tagname, formatS(Value))
    }

    /** `#name ` followed by what `Marshal` makes of the payload, or Marshal's error unchanged. */
    function MarshalEDN(marshal: V -> Result<seq<byte>>): (r: Result<seq<byte>>)
      reads this
      ensures marshal(Value).Fail? <==> r.Fail?
      ensures r.Fail? ==> r.error == marshal(Value).error
      ensures r.Ok? ==> r.value == TagText(Tagname, marshal(Value).value)
    {
      match marshal(Value)
      case Fail(e) => Fail(e)
      case Ok(b) => Ok(TagText(Tagname, b))
    }

    /**
     * Scans `bs` (read as `runes`) with a fresh lexer, then sets the name to
     * `bs[start+1..endTag]` and the payload to what `unmarshal` makes of
     * `bs[endTag..]`. Go hands the decoder the address of the payload, so
     * `unmarshal` also sees the value the tag held before the call. On a scan
     * error nothing is assigned.
     */
    method UnmarshalEDN<S>(lx: Lexer<S>, bs: seq<byte>, runes: seq<RuneRead>, unmarshal: (seq<byte>, V) -> Result<V>)
      returns (status: Status)
      requires Tiles(runes, |bs|)
      modifies this
      ensures match ScanSpec(lx, runes)
              case Aborted(e) =>
                status == Failed(e) && Tagname == old(Tagname) && Value == old(Value)
              case Stopped(start, endTag, _) =>
                if start + 1 > endTag then
                  status == Panicked && Tagname == old(Tagname) && Value == old(Value)
                else
                  && Tagname == bs[start + 1..endTag]
                  && match unmarshal(bs[endTag..], old(Value))
                     case Ok(v) => status == Done && Value == v
                     case Fail(e) => status == Failed(e) && Value == old(Value)
    {
      var sc := ScanTagName(lx, runes);
      match sc
      case Aborted(e) =>
        return Failed(e);
      case Stopped(start, endTag, _) =>
        if start + 1 > endTag {
          return Panicked;
        }
        Tagname := bs[start + 1..endTag];
        var decoded := unmarshal(bs[endTag..], Value);
        match decoded
        case Ok(v) =>
          Value := v;
          status := Done;
        case Fail(e) =>
          status := Failed(e);
    }
  }
}
