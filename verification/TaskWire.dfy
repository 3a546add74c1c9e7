/**
  How a task record travels to Redis: hash values are strings.  A typed field is written with
  String() and read back with parseInt, or is one of a few names; the merge of HSET happens on the
  strings.
 */
module TaskWire {
  import opened Common
  import opened TaskRegistry

  // ---------------------------------------------------------------- numbers and names as strings

  function Digit(d: nat): (c: char)
    requires d < 10
    ensures IsDigit(c) && c as int == d + '0' as int
  {
    ('0' as int + d) as char
  }

  function DigitsOf(n: nat): (s: string)
    ensures s != ""
  {
    if n < 10 then [Digit(n)] else DigitsOf(n / 10) + [Digit(n % 10)]
  }

  // String(n)
  function ToText(n: int): (s: string)
    ensures s != ""
  {
    if n < 0 then "-" + DigitsOf(-n) else DigitsOf(n)
  }

  predicate IsDigit(c: char) {
    '0' <= c <= '9'
  }

  function DigitValue(c: char): nat
    requires IsDigit(c)
  {
    c as int - '0' as int
  }

  // The number that the leading digits spell, after `n`.
  function LeadingNumber(s: string, n: nat): nat {
    if s == "" || !IsDigit(s[0]) then n else LeadingNumber(s[1..], 10 * n + DigitValue(s[0]))
  }

  // parseInt(s, 10) of a string without leading white space; None is NaN.
  function ParseInt(s: string): Option<int> {
    var digits := if s != "" && (s[0] == '-' || s[0] == '+') then s[1..] else s;
    if digits == "" || !IsDigit(digits[0]) then None
    else
      var n: int := LeadingNumber(digits, 0);
      Some(if s[0] == '-' then -n else n)
  }

  predicate AllDigits(s: string) {
    forall c | c in s :: IsDigit(c)
  }

  lemma {:induction false} LeadingNumberAppend(s: string, c: char, n: nat)
    requires AllDigits(s) && IsDigit(c)
    ensures LeadingNumber(s + [c], n) == 10 * LeadingNumber(s, n) + DigitValue(c)
    decreases |s|
  {
    if s == "" {
      assert (s + [c])[1..] == "";
    } else {
      assert s[0] in s && (s + [c])[1..] == s[1..] + [c];
      LeadingNumberAppend(s[1..], c, 10 * n + DigitValue(s[0]));
    }
  }

  lemma {:induction false} DigitsSpellNumber(n: nat)
    ensures AllDigits(DigitsOf(n)) && LeadingNumber(DigitsOf(n), 0) == n
  {
    if n < 10 {
      assert DigitsOf(n)[1..] == "";
    } else {
      DigitsSpellNumber(n / 10);
      LeadingNumberAppend(DigitsOf(n / 10), Digit(n % 10), 0);
    }
  }

  lemma NumberSurvivesText(n: int)
    ensures ParseInt(ToText(n)) == Some(n)
  {
    var digits := DigitsOf(if n < 0 then -n else n);
    DigitsSpellNumber(if n < 0 then -n else n);
    assert digits[0] in digits;
    if n < 0 {
      assert ToText(n)[1..] == digits;
    }
  }

  function StatusText(s: Status): string {
    match s
    case Pending => "pending"
    case InProgress => "in_progress"
    case Completed => "completed"
    case Failed => "failed"
    case Stuck => "stuck"
  }

  function StatusNamed(s: string): Status {
    if s == "in_progress" then InProgress else if s == "completed" then Completed
    else if s == "failed" then Failed else if s == "stuck" then Stuck else Pending
  }

  function PriorityText(p: Priority): string {
    match p
    case P0 => "P0"
    case P1 => "P1"
    case P2 => "P2"
  }

  function PriorityNamed(s: string): Priority {
    if s == "P0" then P0 else if s == "P1" then P1 else P2
  }

  function ReviewText(r: Review): (s: string)
    ensures s != ""
  {
    match r
    case ReviewPending => "pending"
    case Approved => "approved"
    case ChangesRequested => "changes_requested"
  }

  function ReviewNamed(s: string): Review {
    if s == "approved" then Approved else if s == "changes_requested" then ChangesRequested else ReviewPending
  }

  lemma NamesSurviveText(s: Status, p: Priority, r: Review)
    ensures StatusNamed(StatusText(s)) == s && PriorityNamed(PriorityText(p)) == p && ReviewNamed(ReviewText(r)) == r
  {
  }

  // What the names in a hash are read as; any other text is taken for the default.
  lemma NamesMean(text: string)
    ensures StatusNamed("in_progress") == InProgress && StatusNamed("completed") == Completed
    ensures StatusNamed("failed") == Failed && StatusNamed("stuck") == Stuck
    ensures text !in {"in_progress", "completed", "failed", "stuck"} <==> StatusNamed(text) == Pending
    ensures text !in {"P0", "P1"} <==> PriorityNamed(text) == P2
    ensures text !in {"approved", "changes_requested"} <==> ReviewNamed(text) == ReviewPending
    ensures PriorityNamed("P0") == P0 && PriorityNamed("P1") == P1
    ensures ReviewNamed("approved") == Approved && ReviewNamed("changes_requested") == ChangesRequested
    ensures StatusText(Pending) == "pending" && PriorityText(P2) == "P2" && ReviewText(ReviewPending) == "pending"
  {
  }

  // ---------------------------------------------------------------- fields as strings

  type Wire = map<Field, string>

  // The arguments of HSET.
  function Serialize(r: TaskRecord): Wire {
    map f: Field | Writes(r, f) :: ToString(Written(r, f))
  }

  function ToString(v: Value): string {
    match v
    case Text(text) => text
    case Number(n) => ToText(n)
    case OfStatus(s) => StatusText(s)
    case OfPriority(p) => PriorityText(p)
    case OfReview(r) => ReviewText(r)
  }

  function StringAt(h: Wire, f: Field): string {
    if f in h then h[f] else ""
  }

  // An optional number: absent when the field is missing or empty.
  function OptionalAt(h: Wire, f: Field): Option<int> {
    if StringAt(h, f) != "" then ParseInt(h[f]) else None
  }

  function NumberAt(h: Wire, f: Field): int {
    var n := ParseInt(StringAt(h, f));
    if n.Some? then n.value else 0
  }

  function Deserialize(h: Wire): TaskRecord {
    TaskRecord(
      StringAt(h, IdField), StringAt(h, AgentField), StringAt(h, TaskField),
      StatusNamed(StringAt(h, StatusField)), PriorityNamed(StringAt(h, PriorityField)),
      OptionalAt(h, IssueField), OptionalAt(h, PrField),
      if StringAt(h, ReviewField) != "" then Some(ReviewNamed(h[ReviewField])) else None,
      NumberAt(h, CreatedField), NumberAt(h, UpdatedField), OptionalAt(h, CompletedField))
  }

  // The typed fields and the strings that carry them.
  ghost predicate Carries(h: Wire, t: Fields) {
    h.Keys == t.Keys && forall f | f in t :: h[f] == ToString(t[f]) && Suits(f, t[f])
  }

  // The kind of value each field holds.
  predicate Suits(f: Field, v: Value) {
    match f
    case IdField => v.Text?
    case AgentField => v.Text?
    case TaskField => v.Text?
    case StatusField => v.OfStatus?
    case PriorityField => v.OfPriority?
    case ReviewField => v.OfReview?
    case _ => v.Number?
  }

  lemma SerializeCarries(r: TaskRecord)
    ensures Carries(Serialize(r), Encode(r))
  {
    forall f | f in Encode(r)
      ensures Serialize(r)[f] == ToString(Encode(r)[f]) && Suits(f, Encode(r)[f])
    {
      assert Writes(r, f);
    }
  }

  // HSET on strings is HSET on typed fields.
  lemma MergeCarries(g: Wire, s: Fields, h: Wire, t: Fields)
    requires Carries(g, s) && Carries(h, t)
    ensures Carries(g + h, s + t)
  {
    forall f | f in s + t
      ensures (g + h)[f] == ToString((s + t)[f]) && Suits(f, (s + t)[f])
    {
      assert f in t ==> (g + h)[f] == h[f];
    }
  }

  lemma NumberComesBack(h: Wire, t: Fields, f: Field)
    requires Carries(h, t) && (f in t ==> t[f].Number?)
    ensures OptionalAt(h, f) == NumberOf(t, f)
    ensures f in t ==> NumberAt(h, f) == IntOf(t, f)
  {
    if f in t {
      NumberSurvivesText(t[f].number);
    }
  }

  lemma NamesComeBack(h: Wire, t: Fields)
    requires Carries(h, t) && StatusField in t && PriorityField in t
    ensures StatusNamed(StringAt(h, StatusField)) == Decode(t).status
    ensures PriorityNamed(StringAt(h, PriorityField)) == Decode(t).priority
    ensures (if StringAt(h, ReviewField) != "" then Some(ReviewNamed(h[ReviewField])) else None) == Decode(t).reviewStatus
  {
    NamesSurviveText(t[StatusField].status, t[PriorityField].priority,
                     if ReviewField in t then t[ReviewField].review else ReviewPending);
  }

  // Reading the strings gives what reading the typed fields gives.
  lemma DeserializeIsDecode(h: Wire, t: Fields)
    requires Carries(h, t)
    requires forall f | f !in {IssueField, PrField, ReviewField, CompletedField} :: f in t
    ensures Deserialize(h) == Decode(t)
  {
    NumberComesBack(h, t, IssueField);
    NumberComesBack(h, t, PrField);
    NumberComesBack(h, t, CompletedField);
    NumberComesBack(h, t, CreatedField);
    NumberComesBack(h, t, UpdatedField);
    NamesComeBack(h, t);
  }

  /** A record written to Redis and read back is the record. */
  lemma RecordSurvivesRedis(r: TaskRecord)
    ensures Deserialize(Serialize(r)) == r
  {
    SerializeCarries(r);
    DeserializeIsDecode(Serialize(r), Encode(r));
    DecodeEncode(r);
  }

  /** Written over an older record's strings, it reads back as itself exactly when no option was cleared. */
  lemma MergedStringsReadBackIff(before: TaskRecord, after: TaskRecord)
    ensures Deserialize(Serialize(before) + Serialize(after)) == after <==> KeepsOptions(before, after)
  {
    SerializeCarries(before);
    SerializeCarries(after);
    MergeCarries(Serialize(before), Encode(before), Serialize(after), Encode(after));
    DeserializeIsDecode(Serialize(before) + Serialize(after), Encode(before) + Encode(after));
    MergedWriteReadsBackIff(before, after);
  }
}
