/**
 * The validation of a new category (StoreCategoryRequest): the four input
 * fields, the rules on each, the failures in the order the validator reports
 * them, and the custom messages.
 */
module CategoryRequest {
  import opened Wrappers
  import opened PhpText

  /** A submitted value: missing, null, a string, an integer or a boolean. */
  datatype Input = Absent | Null | Text(s: string) | Number(n: int) | Flag(b: bool)

  datatype Field = Name | Priority | Description | ArchiveAfterProcessing

  datatype Rule = Required | IsString | MaxSize(limit: nat) | Unique | IsInteger | MinSize(low: int) | IsBoolean

  datatype Failure = Failure(field: Field, rule: Rule)

  datatype CategoryInput = CategoryInput(name: Input, priority: Input, description: Input, archiveAfterProcessing: Input)

  /** `required` fails on a missing or null value and on a string that trims to nothing. */
  predicate Blank(v: Input) {
    v.Absent? || v.Null? || (v.Text? && Trim(v.s) == "")
  }

  /** The other rules are not applied to a missing value or a string that trims to nothing. */
  predicate Skipped(v: Input) {
    v.Absent? || (v.Text? && Trim(v.s) == "")
  }

  predicate AllDigits(s: string) {
    s != [] && forall i :: 0 <= i < |s| ==> '0' <= s[i] <= '9'
  }

  /** `integer` (FILTER_VALIDATE_INT): an int, a decimal string without leading zeros, or true. */
  predicate IsIntegral(v: Input) {
    match v
    case Number(_) => true
    case Text(s) => AllDigits(s) && (|s| == 1 || s[0] != '0')
    case Flag(b) => b
    case _ => false
  }

  /** The size `min`/`max` compare: the number for a numeric value, otherwise the string length. */
  function Size(v: Input): int {
    match v
    case Number(n) => n
    case Text(s) => if AllDigits(s) then DigitsValue(s) else |s|
    case Flag(b) => if b then 1 else 0
    case _ => 0
  }

  /** A required string of at most `limit` characters, with its failures in rule order. */
  function StringFailures(f: Field, v: Input, limit: nat): (fs: seq<Failure>)
    ensures fs == [] <==> v.Text? && Trim(v.s) != "" && |v.s| <= limit
    ensures Blank(v) ==> fs == [Failure(f, Required)]
  {
    if Blank(v) then [Failure(f, Required)]
    else
      (if v.Text? then [] else [Failure(f, IsString)])
      + (if v.Text? && |v.s| > limit then [Failure(f, MaxSize(limit))] else [])
  }

  /** `name`: required, string, at most 255, unique among the user's category names. */
  function NameFailures(v: Input, existingNames: set<string>): (fs: seq<Failure>)
    ensures fs == [] <==> v.Text? && Trim(v.s) != "" && |v.s| <= 255 && v.s !in existingNames
  {
    StringFailures(Name, v, 255)
      + (if !Blank(v) && v.Text? && v.s in existingNames then [Failure(Name, Unique)] else [])
  }

  /** `priority`: required, integer, at least 1, at most 10. */
  function PriorityFailures(v: Input): (fs: seq<Failure>)
    ensures Blank(v) ==> fs == [Failure(Priority, Required)]
  {
    if Blank(v) then [Failure(Priority, Required)]
    else
      (if IsIntegral(v) then [] else [Failure(Priority, IsInteger)])
      + (if Size(v) < 1 then [Failure(Priority, MinSize(1))] else [])
      + (if Size(v) > 10 then [Failure(Priority, MaxSize(10))] else [])
  }

  /** `archive_after_processing`: nullable; otherwise true, false, 0, 1, "0" or "1". */
  function ArchiveFailures(v: Input): (fs: seq<Failure>)
    ensures fs == [] <==> v.Null? || Skipped(v) || v.Flag? || v in {Number(0), Number(1), Text("0"), Text("1")}
  {
    if v.Null? || Skipped(v) then []
    else if v.Flag? || v in {Number(0), Number(1), Text("0"), Text("1")} then []
    else [Failure(ArchiveAfterProcessing, IsBoolean)]
  }

  /** Every failure, field by field in the order the rules are declared. */
  function Validate(input: CategoryInput, existingNames: set<string>): (fs: seq<Failure>)
    ensures fs == [] <==> && NameFailures(input.name, existingNames) == []
                          && PriorityFailures(input.priority) == []
                          && StringFailures(Description, input.description, 1000) == []
                          && ArchiveFailures(input.archiveAfterProcessing) == []
  {
    NameFailures(input.name, existingNames) + PriorityFailures(input.priority)
      + StringFailures(Description, input.description, 1000) + ArchiveFailures(input.archiveAfterProcessing)
  }

  /** The priorities accepted, stated directly: 1 to 10 as a number or a string, or true (read as 1). */
  predicate AcceptedPriority(v: Input) {
    (v.Number? && 1 <= v.n <= 10)
    || (v.Text? && v.s in {"1", "2", "3", "4", "5", "6", "7", "8", "9", "10"})
    || v == Flag(true)
  }

  /** The request as a whole, stated directly. */
  predicate Accepted(input: CategoryInput, existingNames: set<string>) {
    && input.name.Text? && Trim(input.name.s) != "" && |input.name.s| <= 255 && input.name.s !in existingNames
    && AcceptedPriority(input.priority)
    && input.description.Text? && Trim(input.description.s) != "" && |input.description.s| <= 1000
    && (input.archiveAfterProcessing.Null? || Skipped(input.archiveAfterProcessing) || input.archiveAfterProcessing.Flag?
        || input.archiveAfterProcessing in {Number(0), Number(1), Text("0"), Text("1")})
  }

  /** A digit string without a leading zero is worth at least 10^(length - 1). */
  lemma {:induction false} DigitsValueAtLeast(s: string)
    requires AllDigits(s) && s[0] != '0'
    ensures |s| >= 2 ==> DigitsValue(s) >= 10
    ensures |s| >= 3 ==> DigitsValue(s) >= 100
    decreases |s|
  {
    if |s| >= 2 {
      var init := s[..|s| - 1];
      assert init[0] == s[0];
      DigitsValueAtLeast(init);
      assert DigitsValue(init) >= 1 by {
        if |init| == 1 {
          assert DigitsValue(init) == 10 * DigitsValue(init[..0]) + (init[0] as int - '0' as int);
        }
      }
    }
  }

  /** The strings `integer`, `min:1` and `max:10` let through. */
  predicate PriorityDigits(s: string) {
    AllDigits(s) && (|s| == 1 || s[0] != '0') && 1 <= DigitsValue(s) <= 10
  }

  /** The integer rule and the bounds together accept exactly "1" to "10" among strings. */
  lemma PriorityText(s: string)
    ensures PriorityDigits(s) <==> s in {"1", "2", "3", "4", "5", "6", "7", "8", "9", "10"}
  {
    if PriorityDigits(s) {
      PriorityDigitsListed(s);
    }
    if s in {"1", "2", "3", "4", "5", "6", "7", "8", "9", "10"} {
      ListedPriorityDigits(s);
    }
  }

  /** A one-digit string is worth its digit. */
  lemma OneDigitValue(s: string)
    requires AllDigits(s) && |s| == 1
    ensures DigitsValue(s) == s[0] as int - '0' as int
  {
    assert s[..0] == [];
  }

  lemma PriorityDigitsListed(s: string)
    requires PriorityDigits(s)
    ensures s in {"1", "2", "3", "4", "5", "6", "7", "8", "9", "10"}
  {
    if |s| == 1 {
      OneDigitValue(s);
      assert s == [s[0]];
    } else {
      DigitsValueAtLeast(s);
      assert |s| == 2;
      assert s[..1] == [s[0]];
      OneDigitValue(s[..1]);
      assert s == [s[0], s[1]];
      assert s == "10";
    }
  }

  lemma ListedPriorityDigits(s: string)
    requires s in {"1", "2", "3", "4", "5", "6", "7", "8", "9", "10"}
    ensures PriorityDigits(s)
  {
    if |s| == 1 {
      OneDigitValue(s);
    } else {
      assert s == "10";
      assert s[..1] == "1";
      OneDigitValue(s[..1]);
    }
  }

  lemma PriorityAccepted(v: Input)
    ensures PriorityFailures(v) == [] <==> AcceptedPriority(v)
  {
    if v.Text? {
      PriorityText(v.s);
      assert v.s in {"1", "2", "3", "4", "5", "6", "7", "8", "9", "10"} ==> Trim(v.s) != "" by {
        if v.s in {"1", "2", "3", "4", "5", "6", "7", "8", "9", "10"} {
          TrimOfTrimmed(v.s);
        }
      }
    }
  }

  /** The validator reports nothing exactly when the request meets every rule. */
  lemma ValidateAccepts(input: CategoryInput, existingNames: set<string>)
    ensures Validate(input, existingNames) == [] <==> Accepted(input, existingNames)
  {
    PriorityAccepted(input.priority);
  }

  /** The request's custom messages; the other failures use the framework's default text. */
  function CustomMessage(f: Failure): (m: Option<string>)
    ensures m.Some? <==> f in {Failure(Name, Required), Failure(Name, Unique), Failure(Priority, Required),
                               Failure(Priority, MinSize(1)), Failure(Priority, MaxSize(10)),
                               Failure(Description, Required), Failure(Description, MaxSize(1000))}
  {
    match f
    case Failure(Name, Required) => Some("Category name is required.")
    case Failure(Name, Unique) => Some("You already have a category with this name.")
    case Failure(Priority, Required) => Some("Importance level is required.")
    case Failure(Priority, MinSize(1)) => Some("Importance level must be at least 1.")
    case Failure(Priority, MaxSize(10)) => Some("Importance level must not exceed 10.")
    case Failure(Description, Required) => Some("Description is required to help AI categorize emails.")
    case Failure(Description, MaxSize(1000)) => Some("Description must not exceed 1000 characters.")
    case _ => None
  }

  /** A repeated name under the same user is refused with its own message, and only that. */
  lemma DuplicateNameMessage(name: string, existingNames: set<string>)
    requires name in existingNames && Trim(name) != "" && |name| <= 255
    ensures NameFailures(Text(name), existingNames) == [Failure(Name, Unique)]
    ensures CustomMessage(Failure(Name, Unique)) == Some("You already have a category with this name.")
  {
  }

  /** A priority of 0 fails only the minimum; 11 fails only the maximum. */
  lemma PriorityOutOfRange()
    ensures PriorityFailures(Number(0)) == [Failure(Priority, MinSize(1))]
    ensures PriorityFailures(Number(11)) == [Failure(Priority, MaxSize(10))]
  {
  }
}
