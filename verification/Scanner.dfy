/** The integer scanner behind history requests, and the clamp the history query applies to its result. */
module Scanner {
  import opened Basics

  predicate IsDigit(c: char) { '0' <= c <= '9' }

  function DigitValue(c: char): nat
    requires IsDigit(c)
  {
    c as int - '0' as int
  }

  predicate IsSpace(c: char) { c == ' ' || '\t' <= c <= '\r' }

  lemma SpaceCodes(c: char)
    ensures IsSpace(c) <==> c as int in {9, 10, 11, 12, 13, 32}
    ensures IsDigit(c) <==> 48 <= c as int <= 57
  {
  }

  predicate OccursAt(s: string, pat: string, i: nat) {
    i + |pat| <= |s| && s[i..i + |pat|] == pat
  }

  /** strstr and strchr: the first occurrence at or after from. */
  function Find(s: string, pat: string, from: nat): (r: Option<nat>)
    ensures r.Some? ==> from <= r.value && OccursAt(s, pat, r.value)
    ensures forall j :: from <= j < (if r.Some? then r.value else |s| + 1) ==> !OccursAt(s, pat, j)
    decreases |s| + 1 - from
  {
    if from > |s| then None
    else if OccursAt(s, pat, from) then Some(from)
    else Find(s, pat, from + 1)
  }

  /** The number a string of digits denotes. */
  function Number(d: string): nat
    requires forall i :: 0 <= i < |d| ==> IsDigit(d[i])
  {
    if d == [] then 0 else 10 * Number(d[..|d| - 1]) + DigitValue(d[|d| - 1])
  }

  /** The end of the maximal run of characters from p on that satisfy f. */
  function RunEnd(s: string, p: nat, f: char -> bool): (e: nat)
    requires p <= |s|
    ensures p <= e <= |s| && (forall i :: p <= i < e ==> f(s[i])) && (e < |s| ==> !f(s[e]))
    decreases |s| - p
  {
    if p < |s| && f(s[p]) then RunEnd(s, p + 1, f) else p
  }

  /** An integer literal at p: an optional minus sign and a run of digits. */
  datatype Literal = Absent | Literal(negative: bool, digits: string)

  function LiteralAt(s: string, p: nat): (r: Literal)
    requires p <= |s|
    ensures r.Literal? ==> forall i :: 0 <= i < |r.digits| ==> IsDigit(r.digits[i])
    ensures r.Literal? ==> r.digits != []
  {
    var q := RunEnd(s, p, IsSpace);
    var negative := q < |s| && s[q] == '-';
    var d := if negative then q + 1 else q;
    var e := RunEnd(s, d, IsDigit);
    if d == e then Absent else Literal(negative, s[d..e])
  }

  /** The literal after the first colon after the first occurrence of the key. */
  function FieldLiteral(json: string, key: string): (r: Literal)
    ensures r.Literal? ==> (forall i :: 0 <= i < |r.digits| ==> IsDigit(r.digits[i])) && r.digits != []
  {
    match Find(json, key, 0)
    case None => Absent
    case Some(k) =>
      match Find(json, ":", k)
      case None => Absent
      case Some(c) => LiteralAt(json, c + 1)
  }

  lemma {:induction false} RunTo(s: string, p: nat, f: char -> bool, e: nat)
    requires p <= e <= |s| && (forall i :: p <= i < e ==> f(s[i])) && (e < |s| ==> !f(s[e]))
    ensures RunEnd(s, p, f) == e
    decreases e - p
  {
    if p < e { RunTo(s, p + 1, f, e); }
  }

  lemma LiteralFound(json: string, from: nat, q: nat, d: nat, e: nat)
    requires from <= q < d + 1 <= e <= |json| && d == if json[q] == '-' then q + 1 else q
    requires forall j :: from <= j < q ==> IsSpace(json[j])
    requires forall j :: d <= j < e ==> IsDigit(json[j])
    requires e < |json| ==> !IsDigit(json[e])
    ensures LiteralAt(json, from) == Literal(json[q] == '-', json[d..e])
  {
    assert !IsSpace(json[q]);
    RunTo(json, from, IsSpace, q);
    RunTo(json, d, IsDigit, e);
    hide RunEnd;
  }

  lemma {:induction false} FirstOccurrence(s: string, pat: string, from: nat, k: nat)
    requires from <= k && OccursAt(s, pat, k) && forall j :: from <= j < k ==> !OccursAt(s, pat, j)
    ensures Find(s, pat, from) == Some(k)
    decreases k - from
  {
    assert k <= |s|;
    hide OccursAt;
    if from < k { FirstOccurrence(s, pat, from + 1, k); }
  }

  lemma FirstColon(s: string, k: nat, c: nat)
    requires k <= c < |s| && s[c] == ':' && forall j :: k <= j < c ==> s[j] != ':'
    ensures Find(s, ":", k) == Some(c)
  {
    assert OccursAt(s, ":", c);
    forall j | k <= j < c ensures !OccursAt(s, ":", j) {
      assert s[j..j + 1][0] == s[j];
    }
    FirstOccurrence(s, ":", k, c);
  }

  /** Wherever the key stands at k, its colon at c, the literal at q and the end of the literal at e, and however
      they are spaced, that literal is the one found, provided the key does not occur before k and no colon
      stands between k and c. */
  lemma FieldFound(json: string, key: string, k: nat, c: nat, q: nat, d: nat, e: nat)
    requires k <= c < q < d + 1 <= e <= |json| && d == if json[q] == '-' then q + 1 else q
    requires OccursAt(json, key, k) && forall j :: 0 <= j < k ==> !OccursAt(json, key, j)
    requires json[c] == ':' && forall j :: k <= j < c ==> json[j] != ':'
    requires forall j :: c < j < q ==> IsSpace(json[j])
    requires forall j :: d <= j < e ==> IsDigit(json[j])
    requires e < |json| ==> !IsDigit(json[e])
    ensures FieldLiteral(json, key) == Literal(json[q] == '-', json[d..e])
  {
    hide LiteralAt, Find, OccursAt;
    LiteralFound(json, c + 1, q, d, e);
    FirstOccurrence(json, key, 0, k);
    FirstColon(json, k, c);
  }

  lemma {:induction false} NumberGrows(d: string, k: nat)
    requires forall i :: 0 <= i < |d| ==> IsDigit(d[i])
    requires k <= |d|
    ensures Number(d[..k]) <= Number(d)
    decreases |d| - k
  {
    if k < |d| {
      NumberGrows(d, k + 1);
      assert d[..k + 1][..k] == d[..k];
    } else {
      assert d[..k] == d;
    }
  }

  const CUT_OFF := 1000000

  /** What the scanner may make of a number: itself up to the cut-off, else something above the cut-off. */
  predicate Scanned(n: nat, v: int) {
    if n <= 1000000 then v == n else 1000000 < v <= 10000009
  }

  lemma NumberNext(s: string, p: nat, q: nat)
    requires p <= q < |s| && forall i :: p <= i <= q ==> IsDigit(s[i])
    ensures Number(s[p..q + 1]) == 10 * Number(s[p..q]) + DigitValue(s[q])
  {
    assert s[p..q + 1][..q - p] == s[p..q] && s[p..q + 1][q - p] == s[q];
  }

  lemma NumberOfPart(s: string, p: nat, q: nat, e: nat)
    requires p <= q <= e <= |s| && forall i :: p <= i < e ==> IsDigit(s[i])
    ensures Number(s[p..q]) <= Number(s[p..e])
  {
    assert s[p..e][..q - p] == s[p..q];
    NumberGrows(s[p..e], q - p);
  }

  /** The digit loop of json_find_int; v only grows and ends at 10000009 or less. */
  method ScanDigits(s: string, p: nat, ghost e: nat) returns (v: nat)
    requires p <= e <= |s| && (forall i :: p <= i < e ==> IsDigit(s[i])) && (e < |s| ==> !IsDigit(s[e]))
    ensures Scanned(Number(s[p..e]), v) && v <= 10000009
  {
    assert Number(s[p..p]) == 0;
    hide Number;
    v := 0;
    var q := p;
    while q < |s| && IsDigit(s[q])
      invariant p <= q <= e && v == Number(s[p..q]) <= CUT_OFF
    {
      NumberNext(s, p, q);
      v := v * 10 + DigitValue(s[q]);
      q := q + 1;
      if v > CUT_OFF {
        NumberOfPart(s, p, q, e);
        return;
      }
    }
  }

  /** The scanner's value for a literal. */
  ghost predicate Reads(l: Literal, defv: int, r: int) {
    match l
    case Absent => r == defv
    case Literal(negative, digits) =>
      (forall i :: 0 <= i < |digits| ==> IsDigit(digits[i])) && Scanned(Number(digits), if negative then -r else r)
  }

  method ScanLiteral(json: string, from: nat, defv: int) returns (r: int)
    requires from <= |json|
    ensures Reads(LiteralAt(json, from), defv, r)
  {
    hide Number, Scanned;
    var p := from;
    while p < |json| && IsSpace(json[p])
      invariant from <= p <= |json| && RunEnd(json, from, IsSpace) == RunEnd(json, p, IsSpace)
    {
      p := p + 1;
    }
    var sign: int := 1;
    if p < |json| && json[p] == '-' {
      sign := -1;
      p := p + 1;
    }
    if p == |json| || !IsDigit(json[p]) { return defv; }
    var v := ScanDigits(json, p, RunEnd(json, p, IsDigit));
    r := v * sign;
  }

  method JsonFindInt(json: string, key: string, defv: int) returns (r: int)
    ensures Reads(FieldLiteral(json, key), defv, r)
  {
    hide LiteralAt, Find, Number, Scanned;
    var k := Find(json, key, 0);
    if k == None { return defv; }
    var c := Find(json, ":", k.value);
    if c == None { return defv; }
    r := ScanLiteral(json, c.value + 1, defv);
  }

  /** The limit the history query uses. */
  function Clamp(limit: int): int {
    if limit <= 0 then 300 else if limit > 5000 then 5000 else limit
  }

  /** What a request for the last N rows should mean, with no bound on N. */
  function RowsWanted(l: Literal): int
    requires l.Literal? ==> forall i :: 0 <= i < |l.digits| ==> IsDigit(l.digits[i])
  {
    if l.Absent? || l.negative || Number(l.digits) == 0 then 300 else Min(Number(l.digits), 5000)
  }

  /** The early cut-off cannot be seen after clamping, whatever the number of digits. */
  method HistoryLimit(json: string) returns (limit: int)
    ensures limit == RowsWanted(FieldLiteral(json, "\"last\""))
  {
    var last := JsonFindInt(json, "\"last\"", 300);
    limit := Clamp(last);
  }

  /** "type" with its quotes, or failing that without them, and "history" somewhere after it. */
  function IsHistoryRequest(json: string): bool {
    var quoted := Find(json, "\"type\"", 0);
    var p := if quoted.Some? then quoted else Find(json, "type", 0);
    p.Some? && Find(json, "history", p.value).Some?
  }
}
