/** What Go's `fmt.Fprintf(w, text)` writes when `text` is passed as the
    FORMAT and no operands follow, as writeFiles does with the annotations
    and the description.  Text without `%` is written unchanged; each `%`
    starts a directive: optional flags (`#0+- `), an optional decimal width,
    an optional `.` precision, then a verb.  With no operands, `%%` writes
    `%`, any other verb writes `%!v(MISSING)`, and a directive cut off by the
    end of the text writes `%!(NOVERB)`. */
module GoFmt {

  const NoVerb: string := "%!(NOVERB)"

  predicate IsFlag(c: char) {
    c == '#' || c == '0' || c == '+' || c == '-' || c == ' '
  }

  predicate IsDigit(c: char) {
    '0' <= c <= '9'
  }

  /** The first index at or after `i` that is not a flag character. */
  function SkipFlags(s: string, i: nat): (j: nat)
    requires i <= |s|
    ensures i <= j <= |s|
    ensures j == |s| || !IsFlag(s[j])
    ensures forall k :: i <= k < j ==> IsFlag(s[k])
    decreases |s| - i
  {
    if i < |s| && IsFlag(s[i]) then SkipFlags(s, i + 1) else i
  }

  /** The first index at or after `i` that is not a decimal digit. */
  function SkipDigits(s: string, i: nat): (j: nat)
    requires i <= |s|
    ensures i <= j <= |s|
    ensures j == |s| || !IsDigit(s[j])
    ensures forall k :: i <= k < j ==> IsDigit(s[k])
    decreases |s| - i
  {
    if i < |s| && IsDigit(s[i]) then SkipDigits(s, i + 1) else i
  }

  /** The index of the verb of the directive whose `%` is at `s[0]`: past the
      flags, the width and, when a character follows the `.`, the precision.
      It is `|s|` when the text ends inside the directive. */
  function VerbIndex(s: string): (j: nat)
    requires s != [] && s[0] == '%'
    ensures 1 <= j <= |s|
  {
    var w := SkipDigits(s, SkipFlags(s, 1));
    if w + 1 < |s| && s[w] == '.' then SkipDigits(s, w + 1) else w
  }

  /** The text `Fprintf` writes for format `s` and no operands.  Something is
      written exactly when the format is not empty, and a `%` in the format
      always leaves a `%` in what is written. */
  function FormatNoArgs(s: string): (r: string)
    ensures r == [] <==> s == []
    ensures '%' in s ==> '%' in r
    decreases |s|
  {
    if s == [] then []
    else if s[0] != '%' then [s[0]] + FormatNoArgs(s[1..])
    else
      var v := VerbIndex(s);
      if v == |s| then NoVerb
      else if s[v] == '%' then "%" + FormatNoArgs(s[v + 1..])
      else "%!" + [s[v]] + "(MISSING)" + FormatNoArgs(s[v + 1..])
  }

  /** Text without `%` passes through the format unchanged. */
  lemma {:induction false} FormatWithoutPercent(s: string)
    requires '%' !in s
    ensures FormatNoArgs(s) == s
  {
    if s != [] {
      assert s[0] != '%';
      assert '%' !in s[1..] by {
        forall k | 0 <= k < |s[1..]| ensures s[1..][k] != '%' {
          assert s[1..][k] == s[k + 1];
        }
      }
      FormatWithoutPercent(s[1..]);
      assert s == [s[0]] + s[1..];
    }
  }

  /** The counterexample: an annotation text containing `50%%` is written
      to its file as `50%`. */
  lemma DoublePercentCollapses()
    ensures FormatNoArgs("50%%") == "50%"
  {
  }

  /** A description containing `100% free` is written as `100%!f(MISSING)ree`:
      the space is taken as a flag and the `f` as a verb with no operand.
      The literals come in as parameters fixed by the precondition, so the
      solver works on names rather than unfolding the literal strings. */
  lemma PercentSignMangled(prefix: string, directive: string)
    requires prefix == "100" && directive == "% free"
    ensures FormatNoArgs(prefix + directive) == "100%!f(MISSING)ree"
  {
    MissingOperand();
    PlainPrefix(prefix, directive);
    Spelled(prefix, FormatNoArgs(directive));
  }

  /** The literal spelling of the mangled description.
      The literals come in as parameters fixed by the precondition, so the
      solver works on names rather than unfolding the literal strings. */
  lemma Spelled(prefix: string, written: string)
    requires prefix == "100" && written == "%!f(MISSING)ree"
    ensures prefix + written == "100%!f(MISSING)ree"
  {
  }

  /** `% free`: flag ` `, verb `f`, no operand. */
  lemma MissingOperand()
    ensures FormatNoArgs("% free") == "%!f(MISSING)ree"
  {
    var directive := "% free";
    assert SkipFlags(directive, 1) == 2;
    assert VerbIndex(directive) == 2;
    FormatWithoutPercent(directive[3..]);
    assert directive[3..] == "ree";
  }

  /** A first character other than `%` is copied as it is. */
  lemma PlainHead(s: string)
    requires s != [] && s[0] != '%'
    ensures FormatNoArgs(s) == [s[0]] + FormatNoArgs(s[1..])
  {
  }

  /** A prefix without `%` is copied before the rest is formatted. */
  lemma {:induction false} PlainPrefix(prefix: string, rest: string)
    requires '%' !in prefix
    ensures FormatNoArgs(prefix + rest) == prefix + FormatNoArgs(rest)
  {
    if prefix == [] {
      assert prefix + rest == rest;
    } else {
      var tail := prefix[1..];
      assert '%' !in tail by {
        forall k | 0 <= k < |tail| ensures tail[k] != '%' {
          assert tail[k] == prefix[k + 1];
        }
      }
      var whole := prefix + rest;
      assert whole[0] == prefix[0] && whole[1..] == tail + rest;
      PlainHead(whole);
      PlainPrefix(tail, rest);
      assert prefix == [prefix[0]] + tail;
    }
  }
}
