/** Tool payload previews: cutting long strings, and getting the full payload back from the event. */
module Preview {
  import opened Options
  import opened Events
  import opened TurnRule
  import opened TurnIndex
  import opened Dedup
  import opened TurnModel

  /** toolPayloadPreviewBytes. */
  const PREVIEW_BYTES := 2048

  // ---------------------------------------------------------------- UTF-8 (RFC 3629, section 4)

  predicate Tail(b: Byte) {
    0x80 <= b <= 0xBF
  }

  /** utf8.RuneStart. */
  predicate RuneStart(b: Byte) {
    !Tail(b)
  }

  /** The length of the well-formed character a text starts with, 0 when it starts with none. */
  function CharLength(s: Bytes): (n: nat)
    ensures n <= |s|
  {
    if s == [] then 0
    else if s[0] <= 0x7F then 1
    else if |s| >= 2 && 0xC2 <= s[0] <= 0xDF && Tail(s[1]) then 2
    else if |s| >= 3 && Tail(s[2]) && ThreeByteLead(s[0], s[1]) then 3
    else if |s| >= 4 && Tail(s[2]) && Tail(s[3]) && FourByteLead(s[0], s[1]) then 4
    else 0
  }

  predicate ThreeByteLead(a: Byte, b: Byte) {
    || (a == 0xE0 && 0xA0 <= b <= 0xBF)
    || ((0xE1 <= a <= 0xEC || 0xEE <= a <= 0xEF) && Tail(b))
    || (a == 0xED && 0x80 <= b <= 0x9F)
  }

  predicate FourByteLead(a: Byte, b: Byte) {
    || (a == 0xF0 && 0x90 <= b <= 0xBF)
    || (0xF1 <= a <= 0xF3 && Tail(b))
    || (a == 0xF4 && 0x80 <= b <= 0x8F)
  }

  predicate ValidUTF8(s: Bytes) {
    s == [] || (CharLength(s) > 0 && ValidUTF8(s[CharLength(s)..]))
  }

  // ---------------------------------------------------------------- truncateUTF8

  function CutAt(s: Bytes, n: nat): (k: nat)
    requires n < |s|
    ensures k <= n
  {
    if n == 0 || RuneStart(s[n]) then n else CutAt(s, n - 1)
  }

  function Truncated(s: Bytes, n: nat): Bytes {
    if |s| <= n then s else s[..CutAt(s, n)]
  }

  /** truncateUTF8. */
  method TruncateUTF8(s: Bytes, limit: nat) returns (cut: Bytes)
    ensures cut == Truncated(s, limit)
  {
    if |s| <= limit {
      return s;
    }
    var n: nat := limit;
    while n > 0 && !RuneStart(s[n])
      invariant n < |s| && CutAt(s, n) == CutAt(s, limit)
    {
      n := n - 1;
    }
    return s[..n];
  }

  /** In well-formed text, the places between characters are exactly those before a rune start. */
  lemma {:induction false} BoundaryIff(s: Bytes, k: nat)
    requires ValidUTF8(s) && k <= |s|
    ensures ValidUTF8(s[..k]) <==> k == |s| || RuneStart(s[k])
    decreases |s|
  {
    if s == [] {
      assert s[..k] == [];
    } else {
      var n := CharLength(s);
      if k == 0 {
        assert s[..k] == [];
      } else if k < n {
        assert CharLength(s[..k]) == 0;
      } else {
        assert CharLength(s[..k]) == n;
        assert s[..k][n..] == s[n..][..k - n];
        BoundaryIff(s[n..], k - n);
      }
    }
  }

  /** Cutting well-formed text gives its longest prefix of whole characters within the limit. */
  lemma TruncatedIsLongestWholePrefix(s: Bytes, limit: nat)
    requires ValidUTF8(s)
    ensures var cut := Truncated(s, limit);
            && ValidUTF8(cut) && |cut| <= limit && cut <= s
            && forall m :: |cut| < m <= |s| && m <= limit ==> !ValidUTF8(s[..m])
  {
    if |s| > limit {
      var k := CutAt(s, limit);
      CutIsRuneStart(s, limit);
      BoundaryIff(s, k);
      if k == 0 {
        BoundaryIff(s, 0);
        assert s[..0] == [];
      }
      forall m | k < m <= |s| && m <= limit ensures !ValidUTF8(s[..m]) {
        BoundaryIff(s, m);
      }
    }
  }

  lemma {:induction false} CutIsRuneStart(s: Bytes, n: nat)
    requires n < |s|
    ensures CutAt(s, n) == 0 || RuneStart(s[CutAt(s, n)])
    ensures forall m :: CutAt(s, n) < m <= n ==> !RuneStart(s[m])
  {
    if n > 0 && !RuneStart(s[n]) {
      CutIsRuneStart(s, n - 1);
    }
  }

  // ---------------------------------------------------------------- shortenStrings

  predicate HasLongString(v: Json) {
    match v
    case JString(s) => |s| > PREVIEW_BYTES
    case JArray(items) => exists i :: 0 <= i < |items| && HasLongString(items[i])
    case JObject(fields) => exists k :: k in fields && HasLongString(fields[k])
    case _ => false
  }


  /** What shortenStrings returns: the value and whether anything was cut. */
  datatype Cut = Cut(value: Json, cut: bool)

  /** shortenStrings, its in-place changes to maps and slices taken as new values. */
  function ShortenStrings(v: Json): Cut {
    match v
    case JString(s) => if |s| > PREVIEW_BYTES then Cut(JString(Truncated(s, PREVIEW_BYTES)), true) else Cut(v, false)
    case JArray(items) =>
      Cut(JArray(seq(|items|, i requires 0 <= i < |items| => ShortenStrings(items[i]).value)),
          exists i :: 0 <= i < |items| && ShortenStrings(items[i]).cut)
    case JObject(fields) =>
      Cut(JObject(map k | k in fields :: ShortenStrings(fields[k]).value),
          exists k :: k in fields && ShortenStrings(fields[k]).cut)
    case _ => Cut(v, false)
  }

  /** Same structure, same keys; each string a prefix of the one it replaces, within the limit. */
  predicate Shortens(v: Json, w: Json) {
    match v
    case JString(s) => w.JString? && w.s == Truncated(s, PREVIEW_BYTES)
    case JArray(items) => w.JArray? && |w.items| == |items| && forall i :: 0 <= i < |items| ==> Shortens(items[i], w.items[i])
    case JObject(fields) => w.JObject? && w.fields.Keys == fields.Keys && forall k :: k in fields ==> Shortens(fields[k], w.fields[k])
    case _ => w == v
  }

  lemma {:induction false} ShortenKeepsShape(v: Json)
    ensures Shortens(v, ShortenStrings(v).value)
  {
    match v {
      case JArray(items) =>
        forall i | 0 <= i < |items| ensures Shortens(items[i], ShortenStrings(items[i]).value) {
          ShortenKeepsShape(items[i]);
        }
      case JObject(fields) =>
        forall k | k in fields ensures Shortens(fields[k], ShortenStrings(fields[k]).value) {
          ShortenKeepsShape(fields[k]);
        }
      case _ =>
    }
  }

  /** The flag says exactly whether the value changed, which is exactly when it held a long string. */
  lemma {:induction false} CutIffChanged(v: Json)
    ensures ShortenStrings(v).cut <==> ShortenStrings(v).value != v
    ensures ShortenStrings(v).cut <==> HasLongString(v)
  {
    match v {
      case JArray(items) =>
        forall i | 0 <= i < |items|
          ensures ShortenStrings(items[i]).cut <==> ShortenStrings(items[i]).value != items[i]
          ensures ShortenStrings(items[i]).cut <==> HasLongString(items[i])
        {
          CutIffChanged(items[i]);
        }
        var after := ShortenStrings(v).value.items;
        if i :| 0 <= i < |items| && ShortenStrings(items[i]).cut {
          assert after[i] != items[i];
        } else {
          assert after == items;
        }
      case JObject(fields) =>
        forall k | k in fields
          ensures ShortenStrings(fields[k]).cut <==> ShortenStrings(fields[k]).value != fields[k]
          ensures ShortenStrings(fields[k]).cut <==> HasLongString(fields[k])
        {
          CutIffChanged(fields[k]);
        }
        var after := ShortenStrings(v).value.fields;
        if k :| k in fields && ShortenStrings(fields[k]).cut {
          assert after[k] != fields[k];
        } else {
          assert after == fields;
        }
      case _ =>
    }
  }

  /** A shortened value has nothing left to shorten. */
  lemma {:induction false} ShortenIdempotent(v: Json)
    ensures !HasLongString(ShortenStrings(v).value)
    ensures ShortenStrings(ShortenStrings(v).value) == Cut(ShortenStrings(v).value, false)
  {
    NothingLongLeft(v);
    CutIffChanged(ShortenStrings(v).value);
  }

  lemma {:induction false} NothingLongLeft(v: Json)
    ensures !HasLongString(ShortenStrings(v).value)
  {
    match v {
      case JArray(items) =>
        forall i | 0 <= i < |items| ensures !HasLongString(ShortenStrings(items[i]).value) {
          NothingLongLeft(items[i]);
        }
      case JObject(fields) =>
        forall k | k in fields ensures !HasLongString(ShortenStrings(fields[k]).value) {
          NothingLongLeft(fields[k]);
        }
      case _ =>
    }
  }

  // ---------------------------------------------------------------- preview and expansion

  /** len(e.ToolInput): the bytes the event's tool input was written in. */
  function ToolInputSize(row: EventRow): nat {
    if row.body.Some? && row.body.value.typ == ToolCall && row.body.value.toolCall.Some? then row.body.value.toolCall.value.size
    else 0
  }

  /** The input half of previewToolPayloads. */
  function PreviewInput(e: Entry, size: nat): Entry {
    if e.toolInput.None? || size == 0 then e
    else if size <= PREVIEW_BYTES || !ShortenStrings(e.toolInput.value).cut then e.(toolInputBytes := size)
    else e.(toolInputBytes := size, toolInput := Some(ShortenStrings(e.toolInput.value).value), toolInputTruncated := true)
  }

  /** The output half. */
  function PreviewResult(e: Entry): Entry {
    if e.toolResult.None? then e
    else
      var output := e.toolResult.value;
      if |output| <= PREVIEW_BYTES then e.(toolResultBytes := |output|)
      else e.(toolResultBytes := |output|, toolResult := Some(Truncated(output, PREVIEW_BYTES)), toolResultTruncated := true)
  }

  /** previewToolPayloads. */
  function Previewed(e: Entry, row: EventRow): Entry {
    PreviewResult(PreviewInput(e, ToolInputSize(row)))
  }

  /** expandToolPayloads on one entry, with its event's body at hand. */
  function Expanded(e: Entry, row: EventRow): Entry {
    var full := if (e.toolInputTruncated || e.toolResultTruncated) && row.body.Some?
                then e.(toolInput := ToolInputOf(row.body.value), toolResult := ToolResultOf(row.body.value)) else e;
    full.(toolInputBytes := 0, toolInputTruncated := false, toolResultBytes := 0, toolResultTruncated := false)
  }

  /** An entry as the builder leaves it, tool payloads straight from the event. */
  predicate FullPayloads(e: Entry, row: EventRow) {
    && e.toolInputBytes == 0 && !e.toolInputTruncated && e.toolResultBytes == 0 && !e.toolResultTruncated
    && match row.body
       case None => e.toolInput.None? && e.toolResult.None?
       case Some(ev) => e.toolInput == ToolInputOf(ev) && e.toolResult == ToolResultOf(ev)
  }

  /** A preview expands back to exactly the builder's entry. */
  lemma PreviewThenExpand(e: Entry, row: EventRow)
    requires FullPayloads(e, row)
    ensures Expanded(Previewed(e, row), row) == e
  {
    hide ShortenStrings, Truncated, ToolInputOf, ToolResultOf, ToolInputSize;
    var size := ToolInputSize(row);
    var p := PreviewInput(e, size);
    var q := PreviewResult(p);
    PreviewChangesOnly(e, p, size);
    assert q.(toolInput := e.toolInput, toolResult := e.toolResult, toolInputBytes := 0, toolInputTruncated := false,
              toolResultBytes := 0, toolResultTruncated := false) == e;
  }

  lemma PreviewChangesOnly(e: Entry, p: Entry, size: nat)
    requires p == PreviewInput(e, size)
    ensures p == e.(toolInput := p.toolInput, toolInputBytes := p.toolInputBytes, toolInputTruncated := p.toolInputTruncated)
    ensures !p.toolInputTruncated || e.toolInputTruncated || e.toolInput.Some?
    ensures !p.toolInputTruncated ==> p.toolInput == e.toolInput
  {
    hide ShortenStrings;
  }

  /** What a preview carries and says of each payload: its size, and the payload itself, or, beyond 2048 bytes,
      the tool input with its long strings cut and the tool output's longest whole prefix. */
  lemma PreviewCarries(e: Entry, row: EventRow)
    requires FullPayloads(e, row)
    ensures var p, size := Previewed(e, row), ToolInputSize(row);
            && (e.toolInput.None? ==> p.toolInput.None? && p.toolInputBytes == 0)
            && (e.toolInput.Some? ==>
                  && p.toolInputBytes == size
                  && p.toolInput == Some(if size <= 2048 then e.toolInput.value else ShortenStrings(e.toolInput.value).value))
    ensures var p := Previewed(e, row);
            && (e.toolResult.None? ==> p.toolResult.None? && p.toolResultBytes == 0)
            && (e.toolResult.Some? ==>
                  && p.toolResultBytes == |e.toolResult.value|
                  && p.toolResult == Some(if |e.toolResult.value| <= 2048 then e.toolResult.value
                                          else Truncated(e.toolResult.value, 2048)))
  {
    hide ShortenStrings, Truncated;
    if e.toolInput.Some? {
      CutIffChanged(e.toolInput.value);
    }
  }

  /** The size of a tool input is that of the event's raw message. */
  lemma InputSizeIsTheEvents(row: EventRow)
    ensures var ev := row.body;
            if ev.Some? && ToolInputOf(ev.value).Some? then ToolInputSize(row) == ev.value.toolCall.value.size
            else ToolInputSize(row) == 0
  {
  }

  /** A preview is marked as cut only when the payload it carries differs from the event's. */
  lemma PreviewMarksCuts(e: Entry, row: EventRow)
    requires FullPayloads(e, row)
    ensures Previewed(e, row).toolInputTruncated <==> Previewed(e, row).toolInput != e.toolInput
    ensures Previewed(e, row).toolResultTruncated <==> Previewed(e, row).toolResult != e.toolResult
    ensures e.toolResult.Some? ==> |Previewed(e, row).toolResult.value| <= PREVIEW_BYTES
    ensures Previewed(e, row).toolInputTruncated <==>
            e.toolInput.Some? && ToolInputSize(row) > PREVIEW_BYTES && HasLongString(e.toolInput.value)
  {
    hide ShortenStrings, HasLongString, CutAt;
    if e.toolInput.Some? {
      CutIffChanged(e.toolInput.value);
    }
  }
}
