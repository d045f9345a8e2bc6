/**
 What a run keeps of its result (`cappedResult` in bin/direct-run-audit.js): the default text first, the
 detail in what room is left, both cut with a marker that says how much was cut, together never longer
 than the limit.  The rewriting of pointers afterwards is any function.
 */
module CappedResult {
  /** A number in decimal. */
  function Decimal(n: nat): (s: string)
    ensures |s| >= 1
  {
    if n < 10 then [Digit(n)] else Decimal(n / 10) + [Digit(n % 10)]
  }

  function Digit(n: nat): char
    requires n < 10
  {
    ('0' as int + n) as char
  }

  /** The number a text of digits denotes. */
  function Value(s: string): nat {
    if s == [] || !('0' <= s[|s| - 1] <= '9') then 0 else 10 * Value(s[..|s| - 1]) + (s[|s| - 1] as int - '0' as int)
  }

  /** A decimal says its number, in digits and without leading zeros. */
  lemma {:induction false} DecimalReads(n: nat)
    ensures Value(Decimal(n)) == n && (forall i :: 0 <= i < |Decimal(n)| ==> '0' <= Decimal(n)[i] <= '9') && (n > 0 ==> Decimal(n)[0] != '0')
  {
    if n < 10 {
      assert [Digit(n)][..0] == [];
    } else {
      DecimalReads(n / 10);
      assert Decimal(n)[..|Decimal(n)| - 1] == Decimal(n / 10);
    }
  }

  function CutMarker(kept: nat, total: nat, maxChars: nat): string
    requires kept <= total
  {
    "\n... [" + Decimal(total - kept) + " of " + Decimal(total) + " characters cut at the end; the stored result is limited to "
    + Decimal(maxChars) + " characters] ..."
  }

  lemma {:induction false} DecimalGrows(a: nat, b: nat)
    requires a <= b
    ensures |Decimal(a)| <= |Decimal(b)|
  {
    if a >= 10 { DecimalGrows(a / 10, b / 10); }
  }

  /** The more is kept, the shorter the marker. */
  lemma MarkerShrinks(less: nat, more: nat, total: nat, maxChars: nat)
    requires less <= more <= total
    ensures |CutMarker(more, total, maxChars)| <= |CutMarker(less, total, maxChars)|
  {
    DecimalGrows(total - more, total - less);
  }

  /** A text cut to the limit: as much of it as the longest marker leaves room for, then the marker. */
  function Kept(text: string, maxChars: nat): nat {
    var marker := |CutMarker(0, |text|, maxChars)|;
    if maxChars >= marker then maxChars - marker else 0
  }

  predicate Prefix(p: string, s: string) { |p| <= |s| && s[..|p|] == p }

  /** What the limit leaves of the default text. */
  method CutText(text: string, maxChars: nat) returns (view: string)
    requires |text| > maxChars
    ensures |view| <= maxChars
    ensures |CutMarker(0, |text|, maxChars)| <= maxChars ==>
              Kept(text, maxChars) <= |text| && view == text[..Kept(text, maxChars)] + CutMarker(Kept(text, maxChars), |text|, maxChars)
    ensures |CutMarker(0, |text|, maxChars)| > maxChars ==> |view| == maxChars && Prefix(view, CutMarker(0, |text|, maxChars))
  {
    var total := |text|;
    var marker := CutMarker(0, total, maxChars);
    var keep := if maxChars >= |marker| then maxChars - |marker| else 0;
    MarkerShrinks(0, keep, total, maxChars);
    var whole := text[..keep] + CutMarker(keep, total, maxChars);
    view := if |whole| > maxChars then whole[..maxChars] else whole;
    assert keep == 0 ==> whole == marker;
  }

  predicate CutDetailForm(detail: string, view: string, maxChars: nat) {
    view == "" || exists keep: nat :: 200 <= keep <= |detail| && view == detail[..keep] + CutMarker(keep, |detail|, maxChars)
  }

  /** What the room left of the limit leaves of the detail: at least 200 of its characters and the marker, or nothing. */
  method CutDetail(detail: string, room: nat, maxChars: nat) returns (view: string)
    requires |detail| > room
    ensures |view| <= room && CutDetailForm(detail, view, maxChars)
    ensures view == "" <==> room < |CutMarker(0, |detail|, maxChars)| + 200
    ensures view != "" ==> |CutMarker(0, |detail|, maxChars)| <= room && Prefix(detail[..room - |CutMarker(0, |detail|, maxChars)|], view)
  {
    var total := |detail|;
    var marker := CutMarker(0, total, maxChars);
    if room < |marker| + 200 { return ""; }
    var keep := room - |marker|;
    MarkerShrinks(0, keep, total, maxChars);
    view := detail[..keep] + CutMarker(keep, total, maxChars);
  }

  /** The text has priority, the two fit together before pointers are rewritten, and the flags say what was cut. */
  method Cap(text: string, detail: string, maxChars: nat, reportWas: bool, detailWas: bool, honest: string -> string)
    returns (view: string, detailView: string, reportTruncated: bool, detailTruncated: bool, ghost cut: string)
    ensures |cut| + |detailView| <= maxChars && view == if detailTruncated then honest(cut) else cut
    ensures reportTruncated <==> reportWas || |text| > maxChars
    ensures |text| <= maxChars ==> cut == text
    ensures |text| > maxChars && |CutMarker(0, |text|, maxChars)| <= maxChars ==>
              Kept(text, maxChars) <= |text| && cut == text[..Kept(text, maxChars)] + CutMarker(Kept(text, maxChars), |text|, maxChars)
    ensures |text| > maxChars && |CutMarker(0, |text|, maxChars)| > maxChars ==>
              |cut| == maxChars && Prefix(cut, CutMarker(0, |text|, maxChars))
    ensures detailTruncated <==> detailWas || |cut| + |detail| > maxChars
    ensures if |cut| + |detail| <= maxChars then detailView == detail else CutDetailForm(detail, detailView, maxChars)
    ensures |cut| + |detail| > maxChars ==> (detailView == "" <==> maxChars < |cut| + |CutMarker(0, |detail|, maxChars)| + 200)
  {
    cut, detailView, reportTruncated, detailTruncated := text, detail, reportWas, detailWas;
    view := text;
    if |text| > maxChars {
      view := CutText(text, maxChars);
      reportTruncated := true;
    }
    cut := view;
    if |detail| > maxChars - |view| {
      detailView := CutDetail(detail, maxChars - |view|, maxChars);
      detailTruncated := true;
    }
    if detailTruncated { view := honest(view); }
  }
}
