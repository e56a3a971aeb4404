/** The text helpers of censo_qm/utilities.py: `frange`, the float range
    generator, and `format_line`, which lays out one parameter line with its
    allowed options; and the string alignment of Python's format mini-language
    that they and `printout` use. */
module TextUtil {
  import opened Builtins

  function Max(a: int, b: int): int
  {
    if a >= b then a else b
  }

  /** `" " * n`. */
  function Spaces(n: nat): (r: string)
    ensures |r| == n
    ensures forall i :: 0 <= i < n ==> r[i] == ' '
  {
    seq(n, i => ' ')
  }

  /** `f"{s:>{w}}"`: right-aligned in a field of at least `w` characters. */
  function PadLeft(s: string, w: int): (r: string)
    ensures |r| == Max(|s|, w)
    ensures r[|r| - |s|..] == s
    ensures forall i :: 0 <= i < |r| - |s| ==> r[i] == ' '
  {
    if w > |s| then Spaces(w - |s|) + s else s
  }

  /** `f"{s:{w}}"` for a string: left-aligned in a field of at least `w`
      characters. */
  function PadRight(s: string, w: int): (r: string)
    ensures |r| == Max(|s|, w)
    ensures r[..|s|] == s
    ensures forall i :: |s| <= i < |r| ==> r[i] == ' '
  {
    if w > |s| then s + Spaces(w - |s|) else s
  }

  // ---------------------------------------------------------------------------
  // frange
  // ---------------------------------------------------------------------------

  /** `frange(start, end, step)` consumed to the end: the bounds are swapped when
      `start > end`, then `start + count * step` is produced for count = 0, 1, ...
      while it stays below the upper bound. With a step that is not positive the
      generator never stops unless both bounds are equal, so that is what it
      requires. */
  method FRange(start: real, end: real, step: real) returns (r: seq<real>)
    requires step > 0.0 || start == end
    ensures var lo, hi := if start > end then end else start, if start > end then start else end;
            (forall k :: 0 <= k < |r| ==> r[k] == lo + k as real * step && r[k] < hi)
            && lo + |r| as real * step >= hi
  {
    var lo, hi := start, end;
    if lo > hi {
      lo, hi := hi, lo;
    }
    var bound := 0;
    if step > 0.0 {
      bound := ((hi - lo) / step).Floor + 1;
      StepsReach(lo, hi, step, bound);
    }
    r := [];
    var count := 0;
    while true
      invariant 0 <= count <= bound
      invariant lo + bound as real * step >= hi
      invariant |r| == count
      invariant forall k :: 0 <= k < count ==> r[k] == lo + k as real * step && r[k] < hi
      decreases bound - count
    {
      var temp := lo + count as real * step;
      if temp >= hi {
        break;
      }
      assert count < bound;
      r := r + [temp];
      count := count + 1;
    }
  }

  /** `bound` steps of `step` from `lo` reach `hi`. */
  lemma StepsReach(lo: real, hi: real, step: real, bound: int)
    requires lo <= hi && step > 0.0 && bound == ((hi - lo) / step).Floor + 1
    ensures bound >= 1
    ensures lo + bound as real * step >= hi
  {
    var q := (hi - lo) / step;
    assert q * step == hi - lo;
    assert bound as real > q;
    assert bound as real * step - q * step == (bound as real - q) * step;
  }

  /** The upper bound is never produced, and neither is anything below the lower
      bound; the values ascend by `step`. */
  lemma FRangeWithin(r: seq<real>, lo: real, hi: real, step: real)
    requires step > 0.0
    requires forall k :: 0 <= k < |r| ==> r[k] == lo + k as real * step && r[k] < hi
    ensures forall k :: 0 <= k < |r| ==> lo <= r[k] < hi
    ensures forall k :: 0 <= k < |r| - 1 ==> r[k] < r[k + 1]
  {
    forall k | 0 <= k < |r|
      ensures lo <= r[k]
    {
      NonNegativeSteps(k, step);
    }
    forall k | 0 <= k < |r| - 1
      ensures r[k] < r[k + 1]
    {
      assert r[k + 1] - r[k] == (k + 1) as real * step - k as real * step;
    }
  }

  lemma NonNegativeSteps(k: nat, step: real)
    requires step > 0.0
    ensures k as real * step >= 0.0
  {
  }

  // ---------------------------------------------------------------------------
  // format_line
  // ---------------------------------------------------------------------------

  /** `"'" + o + "'"`, one option as `str(list)` shows it when the option
      holds no quote, backslash or non-printable character (`repr` then
      adds nothing else). */
  function Quoted(o: string): string
  {
    "'" + o + "'"
  }

  /** The options inside the brackets of `str(options)`, separated by ", ". */
  function Items(opts: seq<string>): (r: string)
    ensures |opts| > 0 ==> |r| == OptionChars(opts) + 2 * |opts| - 2
    ensures |opts| == 0 ==> r == ""
  {
    if |opts| == 0 then ""
    else if |opts| == 1 then Quoted(opts[0])
    else
      var init := opts[..|opts| - 1];
      assert init[..|init| - 1] == opts[..|opts| - 2];
      Items(init) + ", " + Quoted(opts[|opts| - 1])
  }

  /** `str(options)` for a list of options free of quotes, backslashes and
      non-printable characters, each shown as `Quoted` shows it. */
  function ListRepr(opts: seq<string>): (r: string)
    ensures |r| == if |opts| == 0 then 2 else OptionChars(opts) + 2 * |opts|
    ensures r[0] == '[' && r[|r| - 1] == ']'
  {
    "[" + Items(opts) + "]"
  }

  /** `sum(len(item) + 2 for item in opts)`: the count `format_line` keeps while
      it walks the options. */
  function OptionChars(opts: seq<string>): (n: nat)
    ensures n >= 2 * |opts|
  {
    if |opts| == 0 then 0
    else OptionChars(opts[..|opts| - 1]) + |opts[|opts| - 1]| + 2
  }

  /** The running count of `format_line` once it has added option `j`. */
  function CountThrough(opts: seq<string>, j: nat): nat
    requires j < |opts|
  {
    OptionChars(opts[..j + 1])
  }

  lemma {:induction false} OptionCharsMonotone(opts: seq<string>, i: nat, j: nat)
    requires i <= j <= |opts|
    ensures OptionChars(opts[..i]) <= OptionChars(opts[..j])
    decreases j - i
  {
    if i < j {
      OptionCharsMonotone(opts, i, j - 1);
      assert opts[..j][..j - 1] == opts[..j - 1];
    }
  }

  /** How many options are kept: exactly those whose running count, their own
      length included, stays below `limit`. Since the count only grows, they are
      a prefix of the options. */
  function KeptCount(opts: seq<string>, limit: int): (k: nat)
    ensures k <= |opts|
    ensures forall j :: 0 <= j < k ==> CountThrough(opts, j) < limit
    ensures k < |opts| ==> CountThrough(opts, k) >= limit
  {
    if |opts| == 0 then 0
    else if OptionChars(opts) < limit then
      assert opts[..|opts|] == opts;
      forall j | 0 <= j < |opts|
        ensures CountThrough(opts, j) < limit
      {
        OptionCharsMonotone(opts, j + 1, |opts|);
      }
      |opts|
    else
      var init := opts[..|opts| - 1];
      var k := KeptCount(init, limit);
      assert forall j :: 0 <= j < |init| ==> CountThrough(init, j) == CountThrough(opts, j) by {
        forall j | 0 <= j < |init|
          ensures CountThrough(init, j) == CountThrough(opts, j)
        {
          assert init[..j + 1] == opts[..j + 1];
        }
      }
      if k < |init| then k
      else
        assert opts[..k + 1] == opts;
        k
  }

  /** The options `format_line` shows when `str(options)` is too long: the kept
      prefix followed by "...". */
  function Reduced(opts: seq<string>, limit: int): (r: seq<string>)
    ensures |r| >= 1 && r[|r| - 1] == "..."
  {
    opts[..KeptCount(opts, limit)] + ["..."]
  }

  /** The reducing loop of `format_line`: it walks every option, never stopping
      early, and keeps an option when the running count is below `limit`. */
  method ReduceOptions(opts: seq<string>, limit: int) returns (reduced: seq<string>)
    ensures reduced == Reduced(opts, limit)
  {
    var length := 0;
    reduced := [];
    for i := 0 to |opts|
      invariant length == OptionChars(opts[..i])
      invariant reduced == opts[..KeptCount(opts[..i], limit)]
    {
      ReduceStep(opts, i, limit);
      length := length + |opts[i]| + 2;
      if length < limit {
        reduced := reduced + [opts[i]];
      }
    }
    assert opts[..|opts|] == opts;
    reduced := reduced + ["..."];
  }

  /** One option of the reducing loop. */
  lemma ReduceStep(opts: seq<string>, i: nat, limit: int)
    requires i < |opts|
    ensures OptionChars(opts[..i + 1]) == OptionChars(opts[..i]) + |opts[i]| + 2
    ensures OptionChars(opts[..i + 1]) < limit
            ==> KeptCount(opts[..i], limit) == i && KeptCount(opts[..i + 1], limit) == i + 1
    ensures OptionChars(opts[..i + 1]) >= limit
            ==> KeptCount(opts[..i + 1], limit) == KeptCount(opts[..i], limit)
  {
    var a, b := opts[..i], opts[..i + 1];
    assert b[..i] == a;
    assert b[..i + 1] == b;
  }

  /** `format_line(key, value, options, optionlength, dist_to_options)`: the key,
      the value padded so that the options start in column `dist_to_options`, and
      the options, shortened to a prefix and "..." when `str(options)` is longer
      than `optionlength`. A key longer than `dist_to_options` gives a negative
      width, which the format mini-language refuses with ValueError. `value` is
      `str(value)`. */
  function FormatLineOf(key: string, value: string, opts: seq<string>, optionlength: int,
                        dist: int): (r: Result<string>)
    ensures r.Err? <==> |key| > dist
    ensures r.Err? ==> r.error == ValueError
  {
    var shown := if |ListRepr(opts)| > optionlength then Reduced(opts, optionlength) else opts;
    var digits := dist - |key|;
    if digits < 0 then Err(ValueError)
    else Ok(key + ": " + PadRight(value, digits) + " # " + ListRepr(shown) + " \n")
  }

  /** `format_line` with the reducing loop. */
  method FormatLine(key: string, value: string, opts: seq<string>, optionlength: int, dist: int)
    returns (r: Result<string>)
    ensures r == FormatLineOf(key, value, opts, optionlength, dist)
  {
    var shown := opts;
    if |ListRepr(opts)| > optionlength {
      shown := ReduceOptions(opts, optionlength);
    }
    var digits := dist - |key|;
    if digits < 0 {
      return Err(ValueError);
    }
    r := Ok(key + ": " + PadRight(value, digits) + " # " + ListRepr(shown) + " \n");
  }

  /** The lines of a parameter listing line up: when the value fits, the key
      starts the line, the value follows ": ", and the '#' before the options
      sits in column `dist + 3` whatever the key and the value are. The line
      ends with the option list, a space and a newline. */
  lemma FormatLineAligned(key: string, value: string, opts: seq<string>, optionlength: int, dist: int)
    requires |key| + |value| <= dist
    ensures var r := FormatLineOf(key, value, opts, optionlength, dist);
            r.Ok? && |r.value| > dist + 5
            && r.value[..|key|] == key
            && r.value[|key| + 2..|key| + 2 + |value|] == value
            && r.value[dist + 2..dist + 5] == " # "
            && r.value[|r.value| - 3..] == "] \n"
  {
    var shown := if |ListRepr(opts)| > optionlength then Reduced(opts, optionlength) else opts;
    var pad := PadRight(value, dist - |key|);
    var head := key + ": " + pad;
    var list := ListRepr(shown);
    assert FormatLineOf(key, value, opts, optionlength, dist) == Ok(head + " # " + list + " \n");
    LineLayout(head, list);
    assert head[..|key|] == key;
    assert head[|key| + 2..|key| + 2 + |value|] == pad[..|value|];
  }

  /** Where the pieces of a listing line sit. */
  lemma LineLayout(head: string, list: string)
    requires |list| > 0
    ensures var line := head + " # " + list + " \n";
            |line| == |head| + |list| + 5
            && (forall i, j :: 0 <= i <= j <= |head| ==> line[i..j] == head[i..j])
            && line[|head|..|head| + 3] == " # "
            && line[|line| - 3..] == [list[|list| - 1]] + " \n"
            && EndsWith(line, list + " \n")
  {
    var line := head + " # " + list + " \n";
    assert line[|line| - |list| - 2..] == list + " \n";
  }

  /** A short option list is shown whole; a long one is cut to the longest
      prefix whose running count stays below `optionlength`, and "..." is
      appended. */
  lemma FormatLineOptions(key: string, value: string, opts: seq<string>, optionlength: int, dist: int)
    requires |key| <= dist
    ensures var r := FormatLineOf(key, value, opts, optionlength, dist);
            var k := KeptCount(opts, optionlength);
            r.Ok?
            && (|ListRepr(opts)| <= optionlength ==> EndsWith(r.value, ListRepr(opts) + " \n"))
            && (|ListRepr(opts)| > optionlength
                ==> EndsWith(r.value, ListRepr(opts[..k] + ["..."]) + " \n")
                    && (forall j :: 0 <= j < k ==> CountThrough(opts, j) < optionlength)
                    && (k < |opts| ==> CountThrough(opts, k) >= optionlength))
  {
    var shown := if |ListRepr(opts)| > optionlength then Reduced(opts, optionlength) else opts;
    var head := key + ": " + PadRight(value, dist - |key|);
    assert FormatLineOf(key, value, opts, optionlength, dist) == Ok(head + " # " + ListRepr(shown) + " \n");
    LineLayout(head, ListRepr(shown));
  }

  predicate EndsWith(s: string, t: string)
  {
    |t| <= |s| && s[|s| - |t|..] == t
  }
}
