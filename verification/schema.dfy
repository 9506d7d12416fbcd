/**
  String schemas in the style of the validation library: a string input passes
  through a list of checks, and the schema accepts it when every check holds.
  The accepted value is the input itself; none of the schemas transforms it.
 */
module Schema {
  import opened RegExp

  /** The two formats whose grammar belongs to the validation library and to the
      platform's URL parser; they are parameters of the model. */
  datatype Formats = Formats(isEmail: string -> bool, isUrl: string -> bool)

  /** An optional field: `.optional()` lets the field be missing. */
  datatype Option<T> = None | Some(value: T)

  /** One refinement of a string schema. */
  datatype Check =
    | MinLength(min: nat)      // .min(n): at least n characters
    | MaxLength(max: nat)      // .max(n): at most n characters
    | Regex(pattern: Pattern)  // .regex(p), or .refine(v => p.test(v))
    | NotEqual(word: string)   // .refine(v => v !== word)
    | EmailFormat              // .email()
    | UrlFormat                // .url()

  predicate Holds(c: Check, fmt: Formats, s: string) {
    match c
    case MinLength(n) => |s| >= n
    case MaxLength(n) => |s| <= n
    case Regex(p) => Test(p, s)
    case NotEqual(w) => s != w
    case EmailFormat => fmt.isEmail(s)
    case UrlFormat => fmt.isUrl(s)
  }

  /** A string schema accepts a string that meets every one of its checks. */
  predicate Accepts(checks: seq<Check>, fmt: Formats, s: string) {
    forall k :: 0 <= k < |checks| ==> Holds(checks[k], fmt, s)
  }

  /** The positions of the checks `s` fails. */
  ghost function FailedAt(checks: seq<Check>, fmt: Formats, s: string): set<int> {
    set k | 0 <= k < |checks| && !Holds(checks[k], fmt, s)
  }

  /** A set is empty or has a member. */
  lemma SomeMember(s: set<int>)
    ensures s == {} || exists y :: y in s
  {
    if forall y :: y !in s {
      assert s == {};
    }
  }

  /** Every element of a set moved up by one. */
  ghost function Shift(positions: set<int>): set<int> {
    set k | k in positions :: k + 1
  }

  /** Taking an element out before moving up takes its successor out after. */
  lemma ShiftRemove(positions: set<int>, x: int)
    requires x in positions
    ensures Shift(positions) == Shift(positions - {x}) + {x + 1}
    ensures x + 1 !in Shift(positions - {x})
  {
    forall y ensures y in Shift(positions) <==> y in Shift(positions - {x}) + {x + 1} {
      var k := y - 1;
      if y in Shift(positions) {
        assert k in positions;
        if k != x {
          assert k in positions - {x};
          assert k + 1 in Shift(positions - {x});
        }
      }
      if y in Shift(positions - {x}) || y == x + 1 {
        assert k in positions;
        assert k + 1 in Shift(positions);
      }
    }
  }

  /** Moving every element of a set up by one keeps its size. */
  lemma {:induction false} ShiftSize(positions: set<int>)
    ensures |Shift(positions)| == |positions|
    decreases |positions|
  {
    if positions == {} {
      assert Shift(positions) == {};
    } else {
      SomeMember(positions);
      var x :| x in positions;
      ShiftSize(positions - {x});
      ShiftRemove(positions, x);
    }
  }

  /** The failed positions of a non-empty schema: the first check's, then those of the
      rest moved up by one. */
  lemma FailedAtSplit(checks: seq<Check>, fmt: Formats, s: string)
    requires checks != []
    ensures FailedAt(checks, fmt, s) ==
              (if Holds(checks[0], fmt, s) then {} else {0})
              + Shift(FailedAt(checks[1..], fmt, s))
  {
    var rest := FailedAt(checks[1..], fmt, s);
    forall k ensures k in FailedAt(checks, fmt, s) <==>
                       (k == 0 && !Holds(checks[0], fmt, s)) || (k - 1 in rest)
    {
      if 1 <= k < |checks| {
        assert checks[1..][k - 1] == checks[k];
      }
    }
  }

  /** The checks `s` fails: one entry per failing position. */
  function Failures(checks: seq<Check>, fmt: Formats, s: string): (r: seq<Check>)
    ensures |r| == |FailedAt(checks, fmt, s)|
    ensures forall c :: c in r ==> c in checks && !Holds(c, fmt, s)
    ensures forall k :: 0 <= k < |checks| && !Holds(checks[k], fmt, s) ==> checks[k] in r
  {
    if checks == [] then
      assert FailedAt(checks, fmt, s) == {};
      []
    else
      var rest := Failures(checks[1..], fmt, s);
      FailedAtSplit(checks, fmt, s);
      ShiftSize(FailedAt(checks[1..], fmt, s));
      assert 0 !in Shift(FailedAt(checks[1..], fmt, s));
      if Holds(checks[0], fmt, s) then rest else [checks[0]] + rest
  }

  /** A candidate value: absent, a string, or a value of some other type. */
  datatype Value = Absent | Text(s: string) | NotText

  /** Why a value was rejected. */
  datatype Issue = Required | InvalidType | Failed(check: Check)

  datatype Outcome = Ok(value: string) | Rejected(issues: seq<Issue>)

  /** Parsing a value: a missing value or one that is not a string is rejected before
      any check runs; a string is accepted unchanged when it meets every check, and
      otherwise rejected with one issue per failed check. */
  function Parse(checks: seq<Check>, fmt: Formats, v: Value): (r: Outcome)
    ensures r.Ok? <==> v.Text? && Accepts(checks, fmt, v.s)
    ensures r.Ok? ==> v == Text(r.value)
    ensures r.Rejected? ==> r.issues != []
    ensures v.Absent? ==> r == Rejected([Required])
    ensures v.NotText? ==> r == Rejected([InvalidType])
    ensures v.Text? && r.Rejected? ==>
              forall k :: 0 <= k < |checks| ==> (Failed(checks[k]) in r.issues <==> !Holds(checks[k], fmt, v.s))
    ensures v.Text? && r.Rejected? ==>
              (forall i :: i in r.issues ==> i.Failed? && i.check in checks && !Holds(i.check, fmt, v.s))
              && |r.issues| == |FailedAt(checks, fmt, v.s)|
  {
    match v
    case Absent => Rejected([Required])
    case NotText => Rejected([InvalidType])
    case Text(s) =>
      var failed := Failures(checks, fmt, s);
      if failed == [] then Ok(s)
      else
        var issues := seq(|failed|, k requires 0 <= k < |failed| => Failed(failed[k]));
        assert forall c :: Failed(c) in issues <==> c in failed by {
          forall c | Failed(c) in issues ensures c in failed {
            var k :| 0 <= k < |issues| && issues[k] == Failed(c);
          }
          forall c | c in failed ensures Failed(c) in issues {
            var k :| 0 <= k < |failed| && failed[k] == c;
            assert issues[k] == Failed(c);
          }
        }
        assert failed[0] in checks;
        Rejected(issues)
  }

  /** Re-parsing an accepted value gives the same outcome. */
  lemma ParseIdempotent(checks: seq<Check>, fmt: Formats, v: Value)
    requires Parse(checks, fmt, v).Ok?
    ensures Parse(checks, fmt, Text(Parse(checks, fmt, v).value)) == Parse(checks, fmt, v)
  {
  }
}
