/** The few pieces of JavaScript value semantics the app relies on: values that
    may be undefined, truthiness of strings, `a || b || ...` fallback chains,
    `String.prototype.split` on a one-character separator and on `/\r?\n/`,
    and `Array.prototype.join`. */
module Js {

  datatype Option<+T> = None | Some(value: T)

  datatype Result<+T, +E> = Ok(value: T) | Err(error: E)

  /** The process environment: a name that is not a key is unset. */
  type Env = map<string, string>

  function EnvVar(env: Env, name: string): Option<string>
  {
    if name in env then Some(env[name]) else None
  }

  /** A string that may be undefined is truthy exactly when it is present and non-empty. */
  predicate Truthy(s: Option<string>)
  {
    s.Some? && s.value != ""
  }

  /** `a || b`: the left operand when it is truthy, otherwise the right one. */
  function Or(a: Option<string>, b: Option<string>): Option<string>
  {
    if Truthy(a) then a else b
  }

  predicate NoneTruthyBefore(chain: seq<Option<string>>, i: nat)
    requires i <= |chain|
  {
    forall j :: 0 <= j < i ==> !Truthy(chain[j])
  }

  /** `chain[0] || chain[1] || ... || chain[n-1]`, grouped to the left as JavaScript
      does: the first truthy operand, or the last operand when none is truthy. */
  function FirstTruthy(chain: seq<Option<string>>): (r: Option<string>)
    requires |chain| > 0
    ensures forall i :: 0 <= i < |chain| && Truthy(chain[i]) && NoneTruthyBefore(chain, i) ==> r == chain[i]
    ensures NoneTruthyBefore(chain, |chain|) ==> r == chain[|chain| - 1]
    ensures Truthy(r) <==> !NoneTruthyBefore(chain, |chain|)
    ensures r in chain
    decreases |chain|
  {
    if |chain| == 1 then chain[0]
    else
      var init := chain[..|chain| - 1];
      assert forall j :: 0 <= j < |init| ==> init[j] == chain[j];
      Or(FirstTruthy(init), chain[|chain| - 1])
  }

  /** `a || b || ... || default` with a non-empty literal default: always a non-empty string. */
  function Resolve(chain: seq<Option<string>>, default: string): (r: string)
    requires default != ""
    ensures r != ""
    ensures forall i :: 0 <= i < |chain| && Truthy(chain[i]) && NoneTruthyBefore(chain, i) ==> r == chain[i].value
    ensures NoneTruthyBefore(chain, |chain|) ==> r == default
    ensures r == default || Some(r) in chain
  {
    var full := chain + [Some(default)];
    assert full[|chain|] == Some(default);
    assert forall i :: 0 <= i < |chain| ==> full[i] == chain[i];
    assert !NoneTruthyBefore(full, |full|);
    FirstTruthy(full).value
  }

  /** `parts.join(sep)`: the empty array joins to the empty string. */
  function Join(parts: seq<string>, sep: string): string
  {
    if |parts| == 0 then ""
    else if |parts| == 1 then parts[0]
    else parts[0] + sep + Join(parts[1..], sep)
  }

  /** `s.split(sep)` for a one-character separator: at least one piece, no piece
      contains the separator, and joining the pieces gives back `s`. */
  function Split(s: string, sep: char): (parts: seq<string>)
    ensures |parts| >= 1
    ensures forall k :: 0 <= k < |parts| ==> sep !in parts[k]
    ensures Join(parts, [sep]) == s
    decreases |s|
  {
    if s == [] then [""]
    else
      var rest := Split(s[1..], sep);
      if s[0] == sep then
        [""] + rest
      else
        var parts := [[s[0]] + rest[0]] + rest[1..];
        assert parts[1..] == rest[1..];
        parts
  }

  predicate EndsWithCR(p: string)
  {
    |p| > 0 && p[|p| - 1] == '\r'
  }

  function DropCR(p: string): (q: string)
    ensures q <= p
  {
    if EndsWithCR(p) then p[..|p| - 1] else p
  }

  /** `s.split(/\r?\n/)`: a cut at every line feed; a carriage return just before
      a line feed belongs to the separator. */
  function SplitLines(s: string): (lines: seq<string>)
    ensures |lines| == |Split(s, '\n')| >= 1
    ensures forall k :: 0 <= k < |lines| ==> '\n' !in lines[k]
    ensures forall k :: 0 <= k < |lines| - 1 ==> lines[k] == DropCR(Split(s, '\n')[k])
    ensures lines[|lines| - 1] == Split(s, '\n')[|lines| - 1]
  {
    var pieces := Split(s, '\n');
    seq(|pieces|, k requires 0 <= k < |pieces| => if k < |pieces| - 1 then DropCR(pieces[k]) else pieces[k])
  }

  lemma {:induction false} SplitNoSeparator(p: string, sep: char)
    requires sep !in p
    ensures Split(p, sep) == [p]
    decreases |p|
  {
    if p != [] {
      SplitNoSeparator(p[1..], sep);
    }
  }

  lemma {:induction false} SplitAtSeparator(p: string, sep: char, rest: string)
    requires sep !in p
    ensures Split(p + [sep] + rest, sep) == [p] + Split(rest, sep)
    decreases |p|
  {
    if p == [] {
      assert p + [sep] + rest == [sep] + rest;
      assert ([sep] + rest)[1..] == rest;
    } else {
      var s := p + [sep] + rest;
      assert s[0] == p[0];
      assert s[1..] == p[1..] + [sep] + rest;
      SplitAtSeparator(p[1..], sep, rest);
      assert [p[0]] + p[1..] == p;
    }
  }

  /** Splitting inverts joining when no piece contains the separator. */
  lemma {:induction false} SplitOfJoin(parts: seq<string>, sep: char)
    requires |parts| >= 1
    requires forall k :: 0 <= k < |parts| ==> sep !in parts[k]
    ensures Split(Join(parts, [sep]), sep) == parts
    decreases |parts|
  {
    if |parts| == 1 {
      SplitNoSeparator(parts[0], sep);
    } else {
      SplitOfJoin(parts[1..], sep);
      SplitAtSeparator(parts[0], sep, Join(parts[1..], [sep]));
      assert [parts[0]] + parts[1..] == parts;
    }
  }

  /** Splitting at `/\r?\n/` inverts joining with "\n" when no line contains a line
      feed and no line but the last ends with a carriage return. */
  lemma SplitLinesOfJoin(lines: seq<string>)
    requires |lines| >= 1
    requires forall k :: 0 <= k < |lines| ==> '\n' !in lines[k]
    requires forall k :: 0 <= k < |lines| - 1 ==> !EndsWithCR(lines[k])
    ensures SplitLines(Join(lines, "\n")) == lines
  {
    SplitOfJoin(lines, '\n');
    assert "\n" == ['\n'];
  }
}
