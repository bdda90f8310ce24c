/** `Coordinator._safe_parse`: a fixed chain of parse attempts over an
    agent's reply text, ending in the empty list. The two parsers
    (`json.loads` and `ast.literal_eval`) are opaque partial functions;
    the regular-expression step `(\{.*\}|\[.*\])` with DOTALL is modelled
    exactly. */
module ReplyParsing {
  import opened Common
  import opened Values

  /** A parser that returns a value or raises (`None`). */
  type Parser = string -> Option<Value>

  predicate IsOpener(c: char) { c == '{' || c == '[' }

  function CloserOf(c: char): char { if c == '{' then '}' else ']' }

  /** The pattern can start matching at `i`: an opening bracket with its
      kind of closing bracket somewhere after it. */
  predicate Opens(s: string, i: int)
  {
    0 <= i < |s| && IsOpener(s[i]) && exists j :: i < j < |s| && s[j] == CloserOf(s[i])
  }

  /** The last occurrence of `c` in `s`. */
  function LastIndexOf(s: string, c: char): (r: Option<nat>)
    ensures r.Some? ==> r.value < |s| && s[r.value] == c
                        && forall k :: r.value < k < |s| ==> s[k] != c
    ensures r.None? ==> forall k :: 0 <= k < |s| ==> s[k] != c
  {
    if |s| == 0 then None
    else if s[|s| - 1] == c then Some(|s| - 1)
    else LastIndexOf(s[..|s| - 1], c)
  }

  /** The span `(start, end)` of the regular-expression match, searching
      from `from`: the leftmost position that opens a fragment, extended
      to the last closing bracket of its kind (the `.*` is greedy). */
  function SpanFrom(s: string, from: nat): (r: Option<(nat, nat)>)
    requires from <= |s|
    ensures r.None? ==> forall i :: from <= i < |s| ==> !Opens(s, i)
    ensures r.Some? ==>
              && from <= r.value.0 < r.value.1 < |s|
              && Opens(s, r.value.0)
              && s[r.value.1] == CloserOf(s[r.value.0])
              && (forall k :: r.value.1 < k < |s| ==> s[k] != CloserOf(s[r.value.0]))
              && (forall i :: from <= i < r.value.0 ==> !Opens(s, i))
    decreases |s| - from
  {
    if from == |s| then None
    else if IsOpener(s[from]) then
      match LastIndexOf(s, CloserOf(s[from]))
      case Some(j) =>
        if j > from then Some((from, j))
        else SpanFrom(s, from + 1)
      case None => SpanFrom(s, from + 1)
    else SpanFrom(s, from + 1)
  }

  /** `s[i..j]` with `j` included is what the pattern matches: `i` is the
      leftmost position that opens a fragment and `j` the last closing
      bracket of its kind. */
  predicate IsMatchSpan(s: string, i: int, j: int)
  {
    && 0 <= i < j < |s|
    && Opens(s, i)
    && s[j] == CloserOf(s[i])
    && (forall k :: j < k < |s| ==> s[k] != CloserOf(s[i]))
    && (forall k :: 0 <= k < i ==> !Opens(s, k))
  }

  /** `re.search(r'(\{.*\}|\[.*\])', text, re.DOTALL)`: the matched text,
      or `None` when no position opens a fragment. The fragment is a slice
      of the text that starts with a bracket and ends with its closer. */
  function Fragment(s: string): (r: Option<string>)
    ensures r.None? <==> forall i :: 0 <= i < |s| ==> !Opens(s, i)
    ensures r.Some? ==> exists i, j :: IsMatchSpan(s, i, j) && r.value == s[i..j + 1]
    ensures r.Some? ==> |r.value| >= 2 && IsOpener(r.value[0])
                        && r.value[|r.value| - 1] == CloserOf(r.value[0])
  {
    match SpanFrom(s, 0)
    case None => None
    case Some((i, j)) =>
      assert IsMatchSpan(s, i, j);
      Some(s[i..j + 1])
  }

  /** `_safe_parse(text)`. */
  function SafeParse(text: string, strict: Parser, literal: Parser): (r: Value)
    ensures strict(text).Some? ==> r == strict(text).value
  {
    match strict(text)
    case Some(v) => v
    case None =>
      match literal(text)
      case Some(v) => v
      case None =>
        match Fragment(text)
        case None => EmptyList
        case Some(f) =>
          match strict(f)
          case Some(v) => v
          case None =>
            match literal(f)
            case Some(v) => v
            case None => EmptyList
  }

  // ---------------------------------------------------------------------
  // Reference: the first attempt that succeeds

  /** The first successful attempt of a list, or `fallback`. */
  function FirstSuccess(attempts: seq<Option<Value>>, fallback: Value): (r: Value)
    ensures (exists i :: 0 <= i < |attempts| && attempts[i] == Some(r)
               && forall j :: 0 <= j < i ==> attempts[j].None?)
            || (r == fallback && forall i :: 0 <= i < |attempts| ==> attempts[i].None?)
  {
    if |attempts| == 0 then fallback
    else if attempts[0].Some? then attempts[0].value
    else
      var r := FirstSuccess(attempts[1..], fallback);
      assert forall i :: 1 <= i < |attempts| ==> attempts[i] == attempts[1..][i - 1];
      r
  }

  /** The attempts `_safe_parse` makes, in order: strict and literal on
      the whole text, then strict and literal on the fragment if there is
      one. */
  function Attempts(text: string, strict: Parser, literal: Parser): seq<Option<Value>>
  {
    [strict(text), literal(text)]
      + match Fragment(text)
        case None => []
        case Some(f) => [strict(f), literal(f)]
  }

  /** `_safe_parse` returns the first strategy that succeeds, in the fixed
      order, and the empty list when every one fails. */
  lemma SafeParseIsFirstSuccess(text: string, strict: Parser, literal: Parser)
    ensures SafeParse(text, strict, literal) == FirstSuccess(Attempts(text, strict, literal), EmptyList)
  {
    var atts := Attempts(text, strict, literal);
    assert atts[1..][1..] == atts[2..];
    match Fragment(text)
    case None =>
      assert atts[2..] == [];
    case Some(f) =>
      var rest := [strict(f), literal(f)];
      assert atts[2..] == rest;
      if strict(text).None? && literal(text).None? {
        assert FirstSuccess(atts, EmptyList) == FirstSuccess(rest, EmptyList);
        if strict(f).None? {
          assert rest[1..] == [literal(f)];
          assert [literal(f)][1..] == [];
          assert FirstSuccess(rest, EmptyList) == FirstSuccess([literal(f)], EmptyList);
        }
      }
  }

  /** When no attempt parses, the result is the empty list. */
  lemma AllFailYieldsEmptyList(text: string, strict: Parser, literal: Parser)
    requires forall a :: a in Attempts(text, strict, literal) ==> a.None?
    ensures SafeParse(text, strict, literal) == EmptyList
  {
    var atts := Attempts(text, strict, literal);
    assert forall i :: 0 <= i < |atts| ==> atts[i] in atts;
  }

  /** A text that is already bracketed is its own fragment: the pattern
      search then retries the same string. */
  lemma BracketedTextIsItsOwnFragment(s: string)
    requires |s| >= 2 && IsOpener(s[0]) && s[|s| - 1] == CloserOf(s[0])
    ensures Fragment(s) == Some(s)
  {
    assert Opens(s, 0);
    assert s[0..|s|] == s;
  }

  /** Text around a bracketed part without brackets of its own does not
      change the fragment. */
  lemma {:induction false} FragmentSkipsPlainPrefix(pre: string, body: string)
    requires forall k :: 0 <= k < |pre| ==> !IsOpener(pre[k])
    requires |body| >= 2 && IsOpener(body[0]) && body[|body| - 1] == CloserOf(body[0])
    ensures Fragment(pre + body) == Some(body)
  {
    var s := pre + body;
    assert Opens(s, |pre|) by {
      assert s[|s| - 1] == CloserOf(s[|pre|]);
    }
    assert forall i :: 0 <= i < |pre| ==> !Opens(s, i) by {
      forall i | 0 <= i < |pre| ensures !IsOpener(s[i]) {
        assert s[i] == pre[i];
      }
    }
    match SpanFrom(s, 0)
    case Some((i, j)) =>
      assert i == |pre|;
      assert s[|s| - 1] == CloserOf(s[i]);
      assert j == |s| - 1;
      assert s[i..j + 1] == body;
    case None =>
      assert false;
  }
}
