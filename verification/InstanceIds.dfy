/**
  Instance ids: a task id, optionally followed by a decimal index in square brackets.
  "2.1.3" and "2.1.3[0]" are instance ids of task "2.1.3".
 */
module InstanceIds {
  import opened Wrappers

  datatype InstanceId = InstanceId(taskId: string, index: Option<nat>)

  predicate IsDigit(c: char) {
    '0' <= c <= '9'
  }

  predicate AllDigits(s: string) {
    forall i | 0 <= i < |s| :: IsDigit(s[i])
  }

  function DigitValue(c: char): nat
    requires IsDigit(c)
  {
    c as int - '0' as int
  }

  function Digit(d: nat): (c: char)
    requires d < 10
    ensures IsDigit(c) && DigitValue(c) == d
  {
    '0' + d as char
  }

  /** parseInt on a run of decimal digits. */
  function ParseNat(s: string): nat
    requires AllDigits(s)
  {
    if s == [] then 0 else 10 * ParseNat(s[..|s| - 1]) + DigitValue(s[|s| - 1])
  }

  /** The decimal digits of n, without leading zeros. */
  function Decimal(n: nat): (s: string)
    ensures |s| > 0 && AllDigits(s)
    ensures ParseNat(s) == n
    ensures s == "0" || s[0] != '0'
  {
    if n < 10 then
      [Digit(n)]
    else
      var s := Decimal(n / 10) + [Digit(n % 10)];
      assert s[..|s| - 1] == Decimal(n / 10);
      s
  }

  predicate NoLeadingZero(s: string) {
    s == "0" || (s != [] && s[0] != '0')
  }

  lemma {:induction false} ParseNatPositive(s: string)
    requires AllDigits(s) && s != [] && s[0] != '0'
    ensures ParseNat(s) > 0
  {
    if |s| > 1 {
      ParseNatPositive(s[..|s| - 1]);
    }
  }

  /** Printing undoes parsing exactly on digit runs without leading zeros. */
  lemma {:induction false} DecimalOfParse(s: string)
    requires AllDigits(s) && s != []
    ensures Decimal(ParseNat(s)) == s <==> NoLeadingZero(s)
  {
    if NoLeadingZero(s) && |s| > 1 {
      var front := s[..|s| - 1];
      DecimalOfParse(front);
      ParseNatPositive(front);
      assert ParseNat(s) / 10 == ParseNat(front);
      assert s == front + [s[|s| - 1]];
    }
  }

  /** The characters that "." does not match in a regular expression. */
  predicate IsLineBreak(c: char) {
    c == '\n' || c == '\r' || c == '\U{2028}' || c == '\U{2029}'
  }

  predicate NoLineBreak(s: string) {
    forall i | 0 <= i < |s| :: !IsLineBreak(s[i])
  }

  /** Where the run of digits that ends just before position `end` starts. */
  function DigitsStart(s: string, end: nat): (start: nat)
    requires end <= |s|
    ensures start <= end
    ensures AllDigits(s[start..end])
    ensures start > 0 ==> !IsDigit(s[start - 1])
  {
    if end > 0 && IsDigit(s[end - 1]) then
      var start := DigitsStart(s, end - 1);
      assert s[start..end] == s[start..end - 1] + [s[end - 1]];
      start
    else
      end
  }

  /** The position of the "[" when the id matches the pattern (.+)[(digits)], as parseInstanceId tests it. */
  function BracketAt(id: string): (r: Option<nat>)
    ensures r.Some? ==> 0 < r.value && r.value + 2 < |id| && id[|id| - 1] == ']' && id[r.value] == '['
    ensures r.Some? ==> AllDigits(id[r.value + 1..|id| - 1]) && NoLineBreak(id[..r.value])
  {
    if |id| < 4 || id[|id| - 1] != ']' then None
    else
      var start := DigitsStart(id, |id| - 1);
      if start < 2 || start == |id| - 1 || id[start - 1] != '[' || !NoLineBreak(id[..start - 1]) then None
      else Some(start - 1)
  }

  function ParseInstanceId(id: string): InstanceId {
    match BracketAt(id)
    case Some(b) => InstanceId(id[..b], Some(ParseNat(id[b + 1..|id| - 1])))
    case None => InstanceId(id, None)
  }

  function BuildInstanceId(taskId: string, index: Option<nat>): string {
    match index
    case Some(i) => taskId + "[" + Decimal(i) + "]"
    case None => taskId
  }

  /** The index part, when there is one, is written without leading zeros. */
  predicate CanonicalIndex(id: string) {
    var b := BracketAt(id);
    b.Some? ==> NoLeadingZero(id[b.value + 1..|id| - 1])
  }

  /** Task ids as the output schema writes them, and any other id free of the separators of field ids. */
  predicate CleanTaskId(taskId: string) {
    taskId != [] && forall i | 0 <= i < |taskId| ::
                      taskId[i] !in {'&', '?', '[', ']'} && !IsLineBreak(taskId[i])
  }

  lemma {:induction false} DigitsStartOfRun(p: string, digits: string, q: string)
    requires AllDigits(digits) && (p == [] || !IsDigit(p[|p| - 1]))
    ensures DigitsStart(p + digits + q, |p| + |digits|) == |p|
    decreases |digits|
  {
    var s := p + digits + q;
    if digits != [] {
      var front := digits[..|digits| - 1];
      DigitsStartOfRun(p, front, [digits[|digits| - 1]] + q);
      assert p + front + ([digits[|digits| - 1]] + q) == s;
      assert s[|p| + |digits| - 1] == digits[|digits| - 1];
    } else if p != [] {
      assert s[|p| - 1] == p[|p| - 1];
    }
  }

  /** Any bracketed digit run behind a non-empty one-line prefix is read as the index. */
  lemma {:induction false} BracketOfBuilt(taskId: string, digits: string)
    requires taskId != [] && NoLineBreak(taskId) && digits != [] && AllDigits(digits)
    ensures BracketAt(taskId + "[" + digits + "]") == Some(|taskId|)
    ensures ParseInstanceId(taskId + "[" + digits + "]") == InstanceId(taskId, Some(ParseNat(digits)))
  {
    var id := taskId + "[" + digits + "]";
    var p := taskId + "[";
    assert id == p + digits + "]";
    DigitsStartOfRun(p, digits, "]");
    assert id[..|taskId|] == taskId;
    assert id[|taskId| + 1..|id| - 1] == digits;
  }

  lemma CleanHasNoBracket(taskId: string)
    requires CleanTaskId(taskId)
    ensures ParseInstanceId(taskId) == InstanceId(taskId, None)
    ensures NoLineBreak(taskId)
  {
  }

  /**
    What buildInstanceId needs of a task id: with an index one line that is not empty, without one no
    index of its own.
   */
  predicate Readable(taskId: string, index: Option<nat>) {
    if index.Some? then taskId != [] && NoLineBreak(taskId) else BracketAt(taskId).None?
  }

  /** parseInstanceId reads back what buildInstanceId wrote exactly for those task ids. */
  lemma ParseOfBuildIff(taskId: string, index: Option<nat>)
    ensures ParseInstanceId(BuildInstanceId(taskId, index)) == InstanceId(taskId, index) <==> Readable(taskId, index)
  {
    if index.Some? {
      if taskId != [] && NoLineBreak(taskId) {
        BracketOfBuilt(taskId, Decimal(index.value));
      }
    }
  }

  /** In particular for clean task ids. */
  lemma ParseOfBuild(taskId: string, index: Option<nat>)
    requires CleanTaskId(taskId)
    ensures Readable(taskId, index) && ParseInstanceId(BuildInstanceId(taskId, index)) == InstanceId(taskId, index)
  {
    CleanHasNoBracket(taskId);
    ParseOfBuildIff(taskId, index);
  }

  /** buildInstanceId writes back what parseInstanceId read exactly when the index has no leading zeros. */
  lemma BuildOfParse(id: string)
    ensures BuildInstanceId(ParseInstanceId(id).taskId, ParseInstanceId(id).index) == id <==> CanonicalIndex(id)
  {
    var b := BracketAt(id);
    if b.Some? {
      var digits := id[b.value + 1..|id| - 1];
      DecimalOfParse(digits);
      assert id == id[..b.value] + "[" + digits + "]";
      var built := BuildInstanceId(ParseInstanceId(id).taskId, ParseInstanceId(id).index);
      var printed := Decimal(ParseNat(digits));
      assert built == id[..b.value] + "[" + printed + "]";
      if built == id {
        assert |printed| == |digits|;
        assert built[b.value + 1..|id| - 1] == printed;
      }
    }
  }

  /** Different instances have different instance ids, as far as these can be read back. */
  lemma BuildInjective(t1: string, i1: Option<nat>, t2: string, i2: Option<nat>)
    requires Readable(t1, i1) && Readable(t2, i2)
    requires BuildInstanceId(t1, i1) == BuildInstanceId(t2, i2)
    ensures t1 == t2 && i1 == i2
  {
    ParseOfBuildIff(t1, i1);
    ParseOfBuildIff(t2, i2);
  }
}
