/** Helpers shared by the HTML and CSS scanners: C-locale character classes,
    the "longest run of characters satisfying a predicate" that both scanners'
    cursor loops compute, and option/result wrappers for the source's
    exceptions and non-terminating loops. */
module Common {

  datatype Option<T> = None | Some(value: T)

  datatype Result<T, E> = Ok(value: T) | Err(error: E)

  /** `isspace` in the C locale: space, \t, \n, \v, \f, \r. */
  predicate IsSpace(c: char) {
    c == ' ' || c == '\t' || c == '\n' || c == '\U{B}' || c == '\U{C}' || c == '\r'
  }

  predicate IsDigit(c: char) {
    '0' <= c <= '9'
  }

  /** `isalnum` in the C locale: ASCII letters and digits. */
  predicate IsAlnum(c: char) {
    IsDigit(c) || 'a' <= c <= 'z' || 'A' <= c <= 'Z'
  }

  /** The character tests the scanners pass to their `consumeWhile` loops:
      white space, `isalnum`, CSS identifier characters (`isalnum` or '-'),
      anything but '"', anything but '>', anything but '<', and the
      characters of an HTML tag name (neither white space nor '>'). */
  datatype CharClass = Space | Alnum | Ident | NotQuote | NotGt | NotLt | TagName

  predicate In(cls: CharClass, c: char) {
    match cls
    case Space => IsSpace(c)
    case Alnum => IsAlnum(c)
    case Ident => IsAlnum(c) || c == '-'
    case NotQuote => c != '"'
    case NotGt => c != '>'
    case NotLt => c != '<'
    case TagName => !IsSpace(c) && c != '>'
  }

  /** The character a cursor at `p` reads: the source's `peekChar` yields '\0'
      at and past the end, and so does `operator[]` of std::string at the
      end itself. */
  function CharAt(s: string, p: nat): (c: char)
    ensures p < |s| ==> c == s[p]
    ensures p >= |s| ==> c == '\0'
  {
    if p < |s| then s[p] else '\0'
  }

  /** What `consumeWhile(pred)` does from cursor `i`: the longest run of
      `pred` characters starting there, read one character at a time, and
      the position after it (nothing is read when `i` is past the end). */
  function Span(s: string, i: nat, pred: CharClass): (r: (string, nat))
    ensures i <= r.1
    ensures i <= |s| ==> r.1 <= |s|
    ensures i > |s| ==> r.1 == i
    ensures r.1 < |s| ==> !In(pred, s[r.1])
    decreases |s| - i
  {
    if i >= |s| || !In(pred, s[i]) then ("", i)
    else
      var (t, j) := Span(s, i + 1, pred);
      ([s[i]] + t, j)
  }

  /** The run read is the stretch of the source the cursor passes, and
      every character in it satisfies `pred`. */
  lemma {:induction false} SpanRun(s: string, i: nat, pred: CharClass)
    requires i <= |s|
    ensures Span(s, i, pred).0 == s[i..Span(s, i, pred).1]
    ensures AllSatisfy(Span(s, i, pred).0, pred)
    decreases |s| - i
  {
    if i < |s| && In(pred, s[i]) {
      SpanRun(s, i + 1, pred);
      assert s[i..Span(s, i, pred).1] == [s[i]] + s[i + 1..Span(s, i + 1, pred).1];
    }
  }

  /** A run is determined by its two ends: any `j` with only `pred`
      characters before it and a non-`pred` character (or the end) at it
      is where the scan stops. */
  lemma {:induction false} SpanUnique(s: string, i: nat, j: nat, pred: CharClass)
    requires i <= j <= |s|
    requires forall k :: i <= k < j ==> In(pred, s[k])
    requires j == |s| || !In(pred, s[j])
    ensures Span(s, i, pred).1 == j
    decreases j - i
  {
    if i < j {
      SpanUnique(s, i + 1, j, pred);
    }
  }

  /** `u` occurs in `s` at position `p`. */
  ghost predicate At<T>(s: seq<T>, p: nat, u: seq<T>)
    decreases |u|
  {
    p + |u| <= |s| && (u == [] || (s[p] == u[0] && At(s, p + 1, u[1..])))
  }

  lemma {:induction false} AtIndex<T>(s: seq<T>, p: nat, u: seq<T>, i: nat)
    requires At(s, p, u) && i < |u|
    ensures p + i < |s| && s[p + i] == u[i]
    decreases i
  {
    if i > 0 {
      AtIndex(s, p + 1, u[1..], i - 1);
    }
  }

  lemma {:induction false} AtAppend<T>(s: seq<T>, p: nat, a: seq<T>, b: seq<T>)
    requires At(s, p, a + b)
    ensures At(s, p, a) && At(s, p + |a|, b)
    decreases |a|
  {
    if a == [] {
      assert a + b == b;
    } else {
      assert (a + b)[1..] == a[1..] + b;
      AtAppend(s, p + 1, a[1..], b);
    }
  }

  /** A sequence occurs where it is written. */
  lemma {:induction false} AtConcat<T>(a: seq<T>, u: seq<T>, b: seq<T>)
    ensures At(a + u + b, |a|, u)
    decreases |u|
  {
    if u != [] {
      assert (a + u + b)[|a|] == u[0];
      assert a + u + b == (a + [u[0]]) + u[1..] + b;
      AtConcat(a + [u[0]], u[1..], b);
    }
  }

  /** Moving the head of `xs` onto the end of `acc`. */
  lemma MoveHead<T>(acc: seq<T>, xs: seq<T>, acc': seq<T>)
    requires xs != [] && acc' == acc + [xs[0]]
    ensures acc' + xs[1..] == acc + xs
  {
    assert acc' + xs[1..] == acc + ([xs[0]] + xs[1..]);
  }

  lemma AppendNil<T>(acc: seq<T>, xs: seq<T>)
    requires xs == []
    ensures acc + xs == acc && xs + acc == acc
  {
  }

  /** The same occurrence stated as a slice: cheaper to carry through
      lemmas that never look at single characters. */
  ghost predicate Sub<T>(s: seq<T>, p: nat, u: seq<T>) {
    p + |u| <= |s| && s[p..p + |u|] == u
  }

  lemma {:induction false} SubAt<T>(s: seq<T>, p: nat, u: seq<T>)
    requires Sub(s, p, u)
    ensures At(s, p, u)
    decreases |u|
  {
    if u != [] {
      assert s[p] == s[p..p + |u|][0];
      assert s[p + 1..p + 1 + |u[1..]|] == s[p..p + |u|][1..];
      SubAt(s, p + 1, u[1..]);
    }
  }

  lemma SubAppend<T>(s: seq<T>, p: nat, a: seq<T>, b: seq<T>)
    requires Sub(s, p, a + b)
    ensures Sub(s, p, a) && Sub(s, p + |a|, b)
  {
    assert s[p..p + |a|] == s[p..p + |a + b|][..|a|];
    assert s[p + |a|..p + |a| + |b|] == s[p..p + |a + b|][|a|..];
  }

  lemma SubConcat<T>(a: seq<T>, u: seq<T>, b: seq<T>)
    ensures Sub(a + u + b, |a|, u)
  {
    assert (a + u + b)[|a|..|a| + |u|] == u;
  }

  /** A run of `pred` characters written at `p` and not followed by
      another is exactly what the scan from `p` reads. */
  lemma SpanOver(s: string, p: nat, w: string, pred: CharClass)
    requires At(s, p, w) && AllSatisfy(w, pred)
    requires p + |w| == |s| || !In(pred, s[p + |w|])
    ensures Span(s, p, pred) == (w, p + |w|)
  {
    forall k | p <= k < p + |w|
      ensures In(pred, s[k])
    {
      AtIndex(s, p, w, k - p);
    }
    SpanUnique(s, p, p + |w|, pred);
    SpanRun(s, p, pred);
    forall k | 0 <= k < |w|
      ensures s[p..p + |w|][k] == w[k]
    {
      AtIndex(s, p, w, k);
    }
    assert s[p..p + |w|] == w;
  }

  /** Every character of `t` satisfies `pred`. */
  predicate AllSatisfy(t: string, pred: CharClass) {
    forall k :: 0 <= k < |t| ==> In(pred, t[k])
  }

  /** The map left by `m[k] = v` for each pair `(k, v)` of `ps` in order: the
      std::map index-assignment loop both the attribute scanner and the style
      cascade run. */
  function AssignAll(m: map<string, string>, ps: seq<(string, string)>): map<string, string>
    decreases |ps|
  {
    if ps == [] then m
    else AssignAll(m, ps[..|ps| - 1])[ps[|ps| - 1].0 := ps[|ps| - 1].1]
  }

  /** One more assignment at the end. */
  lemma AssignAllSnoc(m: map<string, string>, ps: seq<(string, string)>, k: string, v: string)
    ensures AssignAll(m, ps + [(k, v)]) == AssignAll(m, ps)[k := v]
  {
    assert (ps + [(k, v)])[..|ps|] == ps;
  }

  /** The assigned map holds exactly the keys of `m` and of the pairs, and a
      key not in `m` is bound to a value some pair gives it. */
  lemma {:induction false} AssignAllDomain(m: map<string, string>, ps: seq<(string, string)>)
    ensures forall k :: k in AssignAll(m, ps) <==> k in m || exists i :: 0 <= i < |ps| && ps[i].0 == k
    ensures forall k :: k in AssignAll(m, ps) && k !in m ==>
              exists i :: 0 <= i < |ps| && ps[i].0 == k && ps[i].1 == AssignAll(m, ps)[k]
    decreases |ps|
  {
    if ps != [] {
      var init := ps[..|ps| - 1];
      AssignAllDomain(m, init);
      assert forall i :: 0 <= i < |init| ==> init[i] == ps[i];
    }
  }

  /** The last assignment to a key wins. */
  lemma {:induction false} AssignAllLastWins(m: map<string, string>, ps: seq<(string, string)>, i: nat)
    requires i < |ps|
    requires forall j :: i < j < |ps| ==> ps[j].0 != ps[i].0
    ensures ps[i].0 in AssignAll(m, ps) && AssignAll(m, ps)[ps[i].0] == ps[i].1
    decreases |ps|
  {
    if i < |ps| - 1 {
      var init := ps[..|ps| - 1];
      assert init[i] == ps[i];
      AssignAllLastWins(m, init, i);
    }
  }

  /** A key no pair assigns keeps its value from `m`. */
  lemma {:induction false} AssignAllUntouched(m: map<string, string>, ps: seq<(string, string)>, k: string)
    requires forall j :: 0 <= j < |ps| ==> ps[j].0 != k
    requires k in m
    ensures k in AssignAll(m, ps) && AssignAll(m, ps)[k] == m[k]
    decreases |ps|
  {
    if ps != [] {
      AssignAllUntouched(m, ps[..|ps| - 1], k);
    }
  }

  /** Assigning `a` then `b` is assigning `a + b`. */
  lemma {:induction false} AssignAllAppend(m: map<string, string>, a: seq<(string, string)>, b: seq<(string, string)>)
    ensures AssignAll(AssignAll(m, a), b) == AssignAll(m, a + b)
    decreases |b|
  {
    if b != [] {
      var init := b[..|b| - 1];
      assert (a + b)[..|a + b| - 1] == a + init;
      assert (a + b)[|a + b| - 1] == b[|b| - 1];
      AssignAllAppend(m, a, init);
      assert AssignAll(m, a + b) == AssignAll(m, a + init)[b[|b| - 1].0 := b[|b| - 1].1];
    } else {
      assert a + b == a;
    }
  }

  /** The assignments override `m` key by key. */
  lemma {:induction false} AssignAllOverride(m: map<string, string>, ps: seq<(string, string)>)
    ensures AssignAll(m, ps) == m + AssignAll(map[], ps)
    decreases |ps|
  {
    if ps != [] {
      AssignAllOverride(m, ps[..|ps| - 1]);
    }
  }

  /** Running the same assignments twice leaves what running them once does. */
  lemma AssignAllIdempotent(m: map<string, string>, ps: seq<(string, string)>)
    ensures AssignAll(AssignAll(m, ps), ps) == AssignAll(m, ps)
  {
    AssignAllOverride(m, ps);
    AssignAllOverride(AssignAll(m, ps), ps);
    var d := AssignAll(map[], ps);
    assert (m + d) + d == m + d;
  }
}
