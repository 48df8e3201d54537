/**
  The LIST reply of the supervisor (src/arm/gnunet-service-arm.c) and its parser in the client
  library (src/arm/arm_api.c): one NUL-terminated text per running service.
 */
module ArmList {
  import opened Common

  const HEADER_SIZE := 18
  const UINT16 := 0x10000

  /** A C string: the bytes before the terminator. */
  predicate NulFree(s: seq<byte>) {
    forall i | 0 <= i < |s| :: s[i] != 0
  }

  datatype Entry = Entry(name: seq<byte>, binary: seq<byte>, running: bool)

  datatype ListResult = ListResult(count: nat, body: seq<byte>)

  /** The format "%s (%s)". */
  function Text(e: Entry): (r: seq<byte>) {
    e.name + [32, 40] + e.binary + [41]
  }

  /** The texts of the running services, in list order. */
  function Texts(es: seq<Entry>): (r: seq<seq<byte>>)
    ensures |r| <= |es|
  {
    if es == [] then []
    else
      var n := |es| - 1;
      Texts(es[..n]) + (if es[n].running then [Text(es[n])] else [])
  }

  /** The text is the name, a space, and the binary in parentheses. */
  predicate Shows(text: seq<byte>, e: Entry) {
    var n, b := |e.name|, |e.binary|;
    && |text| == n + b + 3
    && text[..n] == e.name && text[n..n + 2] == [32, 40] && text[n + 2..n + 2 + b] == e.binary && text[n + 2 + b] == 41
  }

  function Flags(es: seq<Entry>): (r: seq<bool>)
    ensures |r| == |es|
  {
    seq(|es|, i requires 0 <= i < |es| => es[i].running)
  }

  ghost predicate ShowsAll(texts: seq<seq<byte>>, es: seq<Entry>, places: seq<nat>) {
    |texts| == |places| && forall k | 0 <= k < |places| :: places[k] < |es| && Shows(texts[k], es[places[k]])
  }

  /** There is one text for each running service, and no other, in list order. */
  ghost predicate Lists(texts: seq<seq<byte>>, es: seq<Entry>) {
    exists places: seq<nat> :: Picks(places, Flags(es)) && ShowsAll(texts, es, places)
  }

  lemma TextShows(e: Entry)
    ensures Shows(Text(e), e)
  {
  }

  lemma {:induction false} TextsShow(es: seq<Entry>)
    ensures ShowsAll(Texts(es), es, PlacesOf(Flags(es)))
  {
    if es != [] {
      var n := |es| - 1;
      TextsShow(es[..n]);
      assert Flags(es)[..n] == Flags(es[..n]);
      TextShows(es[n]);
    }
  }

  lemma TextsList(es: seq<Entry>)
    ensures Lists(Texts(es), es)
  {
    TextsShow(es);
    PlacesPick(Flags(es));
  }

  /** Texts one after the other, each with its terminator. */
  function Packed(texts: seq<seq<byte>>): seq<byte> {
    if texts == [] then [] else texts[0] + [0] + Packed(texts[1..])
  }

  lemma {:induction false} PackedAppend(a: seq<seq<byte>>, b: seq<seq<byte>>)
    ensures Packed(a + b) == Packed(a) + Packed(b)
  {
    if a == [] {
      assert a + b == b;
    } else {
      PackedAppend(a[1..], b);
      assert (a + b)[1..] == a[1..] + b;
    }
  }

  lemma PackedPush(a: seq<seq<byte>>, t: seq<byte>)
    ensures Packed(a + [t]) == Packed(a) + (t + [0])
  {
    PackedAppend(a, [t]);
    assert [t][1..] == [];
    assert Packed([t]) == t + [0] + [];
  }

  lemma TextsStep(es: seq<Entry>, k: nat)
    requires k < |es|
    ensures Texts(es[..k + 1]) == if es[k].running then Texts(es[..k]) + [Text(es[k])] else Texts(es[..k])
    ensures Packed(Texts(es[..k + 1]))
         == if es[k].running then Packed(Texts(es[..k])) + (Text(es[k]) + [0]) else Packed(Texts(es[..k]))
  {
    assert es[..k + 1][..k] == es[..k];
    PackedPush(Texts(es[..k]), Text(es[k]));
  }

  lemma {:induction false} PackedGrows(es: seq<Entry>, k: nat)
    requires k <= |es|
    ensures |Packed(Texts(es[..k]))| <= |Packed(Texts(es))|
    decreases |es| - k
  {
    if k < |es| {
      TextsStep(es, k);
      PackedGrows(es, k + 1);
    } else {
      assert es[..k] == es;
    }
  }

  lemma {:induction false} PackedSize(texts: seq<seq<byte>>)
    ensures |Packed(texts)| >= |texts|
  {
    if texts != [] {
      PackedSize(texts[1..]);
    }
  }

  // ----- The service -----

  /** The first loop of handle_list; the count is a 16-bit number. */
  method MeasureList(es: seq<Entry>) returns (size: nat, count: nat)
    ensures size == |Packed(Texts(es))| && count == |Texts(es)| % UINT16
  {
    size, count := 0, 0;
    var k := 0;
    while k < |es|
      invariant k <= |es|
      invariant size == |Packed(Texts(es[..k]))| && count == |Texts(es[..k])| % UINT16
    {
      TextsStep(es, k);
      if es[k].running {
        size := size + |es[k].name|;
        size := size + |es[k].binary|;
        size := size + 4;
        count := (count + 1) % UINT16;
      }
      k := k + 1;
    }
    assert es[..k] == es;
  }

  lemma Truncated(n: nat)
    ensures 0 <= n % UINT16 < UINT16
    ensures if n < UINT16 then n % UINT16 == n else n % UINT16 <= n - UINT16
  {
  }

  /** GNUNET_snprintf with room for the text and its terminator. */
  method PrintText(buf: array<byte>, pos: nat, text: seq<byte>)
    requires pos + |text| + 1 <= buf.Length
    modifies buf
    ensures buf[..pos + |text| + 1] == old(buf[..pos]) + (text + [0])
  {
    var j := 0;
    while j < |text|
      invariant j <= |text|
      invariant buf[..pos] == old(buf[..pos])
      invariant forall i | 0 <= i < j :: buf[pos + i] == text[i]
    {
      buf[pos + j] := text[j];
      j := j + 1;
    }
    buf[pos + j] := 0;
  }

  method PrintEntry(buf: array<byte>, pos: nat, e: Entry)
    requires pos + |e.name| + |e.binary| + 4 <= buf.Length
    modifies buf
    ensures buf[..pos + |e.name| + |e.binary| + 4] == old(buf[..pos]) + (Text(e) + [0])
  {
    PrintText(buf, pos, Text(e));
  }

  /** The second loop of handle_list; false when a text would end behind the buffer. */
  method WriteList(es: seq<Entry>, buf: array<byte>) returns (ok: bool)
    modifies buf
    ensures ok <==> |Packed(Texts(es))| <= buf.Length
    ensures ok ==> buf[..|Packed(Texts(es))|] == Packed(Texts(es))
  {
    var pos, k := 0, 0;
    while k < |es|
      invariant k <= |es| && pos == |Packed(Texts(es[..k]))| <= buf.Length
      invariant buf[..pos] == Packed(Texts(es[..k]))
    {
      TextsStep(es, k);
      if es[k].running {
        var s := |es[k].name| + |es[k].binary| + 4;
        if pos + s > buf.Length {
          PackedGrows(es, k + 1);
          return false;
        }
        PrintEntry(buf, pos, es[k]);
        pos := pos + s;
      }
      k := k + 1;
    }
    assert es[..k] == es;
    ok := true;
  }

  /**
    handle_list.  The message size is a 16-bit number, so the message holds all texts exactly
    when header and texts stay below 64 kB; None means that writing them leaves the message.
   */
  method HandleList(es: seq<Entry>) returns (r: Option<ListResult>)
    ensures r == if HEADER_SIZE + |Packed(Texts(es))| < UINT16
                 then Some(ListResult(|Texts(es)|, Packed(Texts(es)))) else None
    ensures r.Some? <==> |Packed(Texts(es))| <= 65517
  {
    var size, count := MeasureList(es);
    PackedSize(Texts(es));
    var messageSize := (HEADER_SIZE + size) % UINT16;
    Truncated(HEADER_SIZE + size);
    Truncated(|Texts(es)|);
    if messageSize < HEADER_SIZE {
      return None;
    }
    var buf := new byte[messageSize - HEADER_SIZE];
    var ok := WriteList(es, buf);
    if !ok {
      return None;
    }
    assert buf[..] == buf[..buf.Length];
    r := Some(ListResult(count, buf[..]));
  }

  // ----- The client -----

  /** Position of the first NUL, or the length. */
  function FirstNul(s: seq<byte>): (i: nat)
    ensures i <= |s| && NulFree(s[..i]) && (i < |s| ==> s[i] == 0)
  {
    if s == [] || s[0] == 0 then 0
    else
      var i := 1 + FirstNul(s[1..]);
      assert s[..i] == [s[0]] + s[1..][..i - 1];
      i
  }

  function Zeros(s: seq<byte>): (n: nat)
    ensures n <= |s|
  {
    if s == [] then 0 else (if s[0] == 0 then 1 else 0) + Zeros(s[1..])
  }

  /** The first n texts of a message body, if it has that many. */
  function Parse(body: seq<byte>, n: nat): Option<seq<seq<byte>>>
    decreases n
  {
    if n == 0 then Some([])
    else
      var i := FirstNul(body);
      if i == |body| then None
      else match Parse(body[i + 1..], n - 1)
        case None => None
        case Some(rest) => Some([body[..i]] + rest)
  }

  lemma {:induction false} FirstNulUnique(s: seq<byte>, i: nat)
    requires i < |s| && NulFree(s[..i]) && s[i] == 0
    ensures FirstNul(s) == i
  {
    if i > 0 {
      assert s[..i][0] == s[0];
      assert s[1..][..i - 1] == s[..i][1..];
      FirstNulUnique(s[1..], i - 1);
    }
  }

  lemma {:induction false} ZerosAfterFirst(s: seq<byte>)
    ensures FirstNul(s) == |s| ==> Zeros(s) == 0
    ensures FirstNul(s) < |s| ==> Zeros(s) == 1 + Zeros(s[FirstNul(s) + 1..])
  {
    if s != [] && s[0] != 0 {
      ZerosAfterFirst(s[1..]);
      var i := FirstNul(s[1..]);
      if i < |s| - 1 {
        assert s[1..][i + 1..] == s[i + 2..];
      }
    }
  }

  /** A body has n texts exactly when it has n terminators. */
  lemma {:induction false} ParseIffTerminated(body: seq<byte>, n: nat)
    ensures Parse(body, n).Some? <==> n <= Zeros(body)
    decreases n
  {
    if n > 0 {
      ZerosAfterFirst(body);
      if FirstNul(body) < |body| {
        ParseIffTerminated(body[FirstNul(body) + 1..], n - 1);
      }
    }
  }

  /** What is parsed is what was packed: the texts, terminated, are the front of the body. */
  lemma {:induction false} ParseSound(body: seq<byte>, n: nat)
    ensures match Parse(body, n)
            case None => true
            case Some(list) => |list| == n && (forall i | 0 <= i < n :: NulFree(list[i])) && Packed(list) <= body
    decreases n
  {
    if n > 0 && Parse(body, n).Some? {
      var i := FirstNul(body);
      var tail := body[i + 1..];
      ParseSound(tail, n - 1);
      var rest := Parse(tail, n - 1).value;
      var list := [body[..i]] + rest;
      assert list[1..] == rest;
      assert body == body[..i] + [0] + tail;
      assert Packed(list) == body[..i] + [0] + Packed(rest);
    }
  }

  /** Packing and parsing are inverse, whatever follows the texts. */
  lemma {:induction false} ParsePacked(texts: seq<seq<byte>>, more: seq<byte>)
    requires forall i | 0 <= i < |texts| :: NulFree(texts[i])
    ensures Parse(Packed(texts) + more, |texts|) == Some(texts)
  {
    if texts != [] {
      var t, rest := texts[0], Packed(texts[1..]) + more;
      var body := Packed(texts) + more;
      assert body == t + [0] + rest;
      FirstNulUnique(body, |t|);
      assert body[|t| + 1..] == rest && body[..|t|] == t;
      ParsePacked(texts[1..], more);
      assert Parse(rest, |texts| - 1) == Some(texts[1..]);
      assert [t] + texts[1..] == texts;
    }
  }

  /** memchr (body + pos, 0, n) */
  method FindTerminator(body: seq<byte>, pos: nat, n: nat) returns (end: Option<nat>)
    requires pos + n == |body|
    ensures FirstNul(body[pos..]) == n ==> end.None?
    ensures FirstNul(body[pos..]) < n ==> end == Some(pos + FirstNul(body[pos..]))
  {
    var j := 0;
    while j < n && body[pos + j] != 0
      invariant j <= n
      invariant NulFree(body[pos..][..j])
    {
      assert body[pos..][..j + 1] == body[pos..][..j] + [body[pos + j]];
      j := j + 1;
    }
    if j == n {
      assert body[pos..][..j] == body[pos..];
      return None;
    }
    FirstNulUnique(body[pos..], j);
    end := Some(pos + j);
  }

  /** One round of either loop of the client; the 16-bit size_check never wraps. */
  method NextText(body: seq<byte>, pos: nat, sizeCheck: nat) returns (end: Option<nat>, checked: nat)
    requires sizeCheck == pos <= |body| && HEADER_SIZE + |body| < UINT16
    ensures pos + FirstNul(body[pos..]) == |body| ==> end.None?
    ensures pos + FirstNul(body[pos..]) < |body| ==>
              end == Some(pos + FirstNul(body[pos..])) && checked == end.value + 1 <= |body|
  {
    end := FindTerminator(body, pos, |body| - sizeCheck);
    checked := sizeCheck;
    if end.Some? {
      Truncated(sizeCheck + (end.value - pos) + 1);
      checked := (sizeCheck + (end.value - pos) + 1) % UINT16;
    }
  }

  lemma ZerosStep(body: seq<byte>, pos: nat, i: nat)
    requires pos <= |body| && i == FirstNul(body[pos..])
    ensures pos + i == |body| ==> Zeros(body[pos..]) == 0
    ensures pos + i < |body| ==> Zeros(body[pos..]) == 1 + Zeros(body[pos + i + 1..])
  {
    ZerosAfterFirst(body[pos..]);
    if pos + i < |body| {
      assert body[pos..][i + 1..] == body[pos + i + 1..];
    }
  }

  /** check_arm_list_result accepts exactly the bodies with enough terminators. */
  method CheckListResult(rcount: nat, body: seq<byte>) returns (ok: bool)
    requires rcount < UINT16 && HEADER_SIZE + |body| < UINT16
    ensures ok <==> rcount <= Zeros(body)
  {
    var pos: nat, sizeCheck: nat, i: nat := 0, 0, 0;
    while i < rcount
      invariant i <= rcount && sizeCheck == pos <= |body|
      invariant Zeros(body) == i + Zeros(body[pos..])
    {
      ZerosStep(body, pos, FirstNul(body[pos..]));
      var end, checked := NextText(body, pos, sizeCheck);
      if end.None? {
        return false;
      }
      sizeCheck := checked;
      pos := end.value + 1;
      i := i + 1;
    }
    ok := true;
  }

  /** The list is a cut of the front of the body. */
  ghost predicate Cuts(list: seq<seq<byte>>, front: seq<byte>) {
    Packed(list) == front && forall i | 0 <= i < |list| :: NulFree(list[i])
  }

  lemma CutStep(body: seq<byte>, pos: nat, list: seq<seq<byte>>, end: nat)
    requires pos <= end < |body| && Cuts(list, body[..pos]) && end == pos + FirstNul(body[pos..])
    ensures Cuts(list + [body[pos..end]], body[..end + 1])
  {
    PackedPush(list, body[pos..end]);
    assert body[pos..][..end - pos] == body[pos..end];
    assert body[..end + 1] == body[..pos] + (body[pos..end] + [0]);
  }

  /** handle_arm_list_result; None when its assertion fails. */
  method HandleListResult(rcount: nat, body: seq<byte>) returns (r: Option<seq<seq<byte>>>)
    requires rcount < UINT16 && HEADER_SIZE + |body| < UINT16
    ensures r.Some? <==> rcount <= Zeros(body)
    ensures r.Some? ==> |r.value| == rcount && exists n :: 0 <= n <= |body| && Cuts(r.value, body[..n])
  {
    var list: seq<seq<byte>> := [];
    var pos: nat, sizeCheck: nat, i: nat := 0, 0, 0;
    while i < rcount
      invariant i <= rcount && sizeCheck == pos <= |body|
      invariant Zeros(body) == i + Zeros(body[pos..])
      invariant |list| == i && Cuts(list, body[..pos])
    {
      ZerosStep(body, pos, FirstNul(body[pos..]));
      var end, checked := NextText(body, pos, sizeCheck);
      if end.None? {
        return None;
      }
      CutStep(body, pos, list, end.value);
      list := list + [body[pos..end.value]];
      sizeCheck := checked;
      pos := end.value + 1;
      i := i + 1;
    }
    r := Some(list);
  }

  lemma CutIsParse(list: seq<seq<byte>>, body: seq<byte>, n: nat)
    requires n <= |body| && Cuts(list, body[..n])
    ensures Parse(body, |list|) == Some(list)
  {
    ParsePacked(list, body[n..]);
    assert body[..n] + body[n..] == body;
  }

  /** The handler's assertion holds for every message that the check accepts, and only for those. */
  method ReceiveList(rcount: nat, body: seq<byte>) returns (r: Option<seq<seq<byte>>>)
    requires rcount < UINT16 && HEADER_SIZE + |body| < UINT16
    ensures r == Parse(body, rcount) && (r.Some? <==> rcount <= Zeros(body))
    ensures r.Some? ==> |r.value| == rcount && Packed(r.value) <= body
  {
    ParseIffTerminated(body, rcount);
    var ok := CheckListResult(rcount, body);
    if !ok {
      return None;
    }
    r := HandleListResult(rcount, body);
    ghost var n :| 0 <= n <= |body| && Cuts(r.value, body[..n]);
    CutIsParse(r.value, body, n);
    ParseSound(body, rcount);
  }

  lemma {:induction false} TextsNulFree(es: seq<Entry>)
    requires forall i | 0 <= i < |es| :: NulFree(es[i].name) && NulFree(es[i].binary)
    ensures forall i | 0 <= i < |Texts(es)| :: NulFree(Texts(es)[i])
  {
    if es != [] {
      TextsNulFree(es[..|es| - 1]);
    }
  }

  /** A client that asks for the list gets the texts of the running services, in order. */
  method ListRoundTrip(es: seq<Entry>) returns (r: Option<seq<seq<byte>>>)
    requires forall i | 0 <= i < |es| :: NulFree(es[i].name) && NulFree(es[i].binary)
    requires HEADER_SIZE + |Packed(Texts(es))| < UINT16
    ensures r == Some(Texts(es)) && Lists(r.value, es)
  {
    TextsList(es);
    var sent := HandleList(es);
    PackedSize(Texts(es));
    TextsNulFree(es);
    ParsePacked(Texts(es), []);
    assert Packed(Texts(es)) + [] == Packed(Texts(es));
    ParseIffTerminated(sent.value.body, sent.value.count);
    r := ReceiveList(sent.value.count, sent.value.body);
  }

  /** Two ways of cutting a body into the same number of texts agree. */
  lemma PackingUnambiguous(a: seq<seq<byte>>, b: seq<seq<byte>>, body: seq<byte>)
    requires |a| == |b| && Packed(a) <= body && Packed(b) <= body
    requires (forall i | 0 <= i < |a| :: NulFree(a[i])) && (forall i | 0 <= i < |b| :: NulFree(b[i]))
    ensures a == b
  {
    ParsePacked(a, body[|Packed(a)|..]);
    ParsePacked(b, body[|Packed(b)|..]);
    assert body == Packed(a) + body[|Packed(a)|..] == Packed(b) + body[|Packed(b)|..];
  }
}
