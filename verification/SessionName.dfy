/** credentials_getter.go: role resolution and the STS session name. A Go panic (a slice
    bound out of range) is an outcome of its own, so that it can be characterised. */
module SessionName {
  import opened Text

  datatype Outcome<+T> = Ok(value: T) | Failed | Panicked

  /** Concatenation with a successful outcome; a failure or a panic passes through. */
  function Append(head: Outcome<string>, tail: string): Outcome<string> {
    if head.Ok? then Ok(head.value + tail) else head
  }

  function Prepend(head: string, tail: Outcome<string>): Outcome<string> {
    if tail.Ok? then Ok(head + tail.value) else tail
  }

  const ROLE_ARN_SUFFIX := ":role"
  const SESSION_NAME_MAX_SIZE := 64

  /** normalizePath: from the last level backwards, each level keeps as many bytes as the
      budget allows when one byte and one dot stay reserved for every level before it. */
  function NormalizePath(levels: seq<string>, remaining: int): Outcome<string> {
    if |levels| == 0 then Ok("")
    else
      var front := levels[..|levels| - 1];
      var last := ReplaceAll(levels[|levels| - 1], ':', '_');
      var maxName := remaining - |front| * 2 - 1;
      if |last| > maxName && maxName < 0 then Panicked
      else
        var kept := if |last| > maxName then last[..maxName] else last;
        Append(NormalizePath(front, remaining - |kept| - 1), "." + kept)
  }

  /** The account id normalizeRoleARN reads from the first segment of an ARN. */
  function AccountOf(roleARN: string, prefix: string): string {
    TrimSuffix(TrimPrefix(Split(roleARN, '/')[0], prefix), ROLE_ARN_SUFFIX)
  }

  /** The path levels: every segment after the first. */
  function LevelsOf(roleARN: string): seq<string> {
    Split(roleARN, '/')[1..]
  }

  /** The session name for an account id and path levels. */
  function SessionNameOf(account: string, levels: seq<string>): Outcome<string> {
    if |levels| == 0 then Failed
    else Prepend(account, NormalizePath(levels, SESSION_NAME_MAX_SIZE - |account|))
  }

  /** normalizeRoleARN */
  function NormalizeRoleARN(roleARN: string, prefix: string): Outcome<string> {
    SessionNameOf(AccountOf(roleARN, prefix), LevelsOf(roleARN))
  }

  /** The choice of ARN at the head of STSCredentialsGetter.Get. */
  function Resolve(baseRoleARN: string, prefix: string, role: string): string {
    if HasPrefix(role, prefix) then role else baseRoleARN + role
  }

  datatype AssumeRoleInput = AssumeRoleInput(roleArn: string, roleSessionName: string)

  /** What Get sends to STS for a role, given as a name or as a full ARN. */
  function Request(baseRoleARN: string, prefix: string, role: string): Outcome<AssumeRoleInput> {
    var arn := Resolve(baseRoleARN, prefix, role);
    var name := NormalizeRoleARN(arn, prefix);
    if name.Ok? then Ok(AssumeRoleInput(arn, name.value)) else if name.Failed? then Failed else Panicked
  }

  /** GetPrefixFromARN, with the AWS SDK's `arn.Parse`: the "arn:" prefix and six sections. */
  function GetPrefixFromARN(inputARN: string): Outcome<string> {
    var sections := SplitN(inputARN, ':', 6);
    if !HasPrefix(inputARN, "arn:") || |sections| != 6 then Failed
    else Ok("arn:" + sections[1] + ":iam::")
  }

  // ---------------------------------------------------------------- budget and lengths

  ghost predicate NonEmptyLevels(levels: seq<string>) {
    forall i :: 0 <= i < |levels| ==> levels[i] != ""
  }

  /** Σ(1 + len(level)): the length of the path when nothing is cut. */
  function FullLength(levels: seq<string>): nat {
    if |levels| == 0 then 0 else FullLength(levels[..|levels| - 1]) + 1 + |levels[|levels| - 1]|
  }

  function Min(a: int, b: int): int { if a <= b then a else b }

  /** The sharp safety condition: no slice bound is violated anywhere in the recursion exactly
      when the budget has room for a dot and a byte of every level but one lone dot. */
  lemma {:induction false} SafeIffBudget(levels: seq<string>, remaining: int)
    requires |levels| >= 1
    ensures NormalizePath(levels, remaining).Ok? <==> remaining >= 2 * |levels| - 1
    ensures NormalizePath(levels, remaining).Panicked? <==> remaining < 2 * |levels| - 1
  {
    var front := levels[..|levels| - 1];
    var last := ReplaceAll(levels[|levels| - 1], ':', '_');
    var maxName := remaining - |front| * 2 - 1;
    if maxName >= 0 && |front| >= 1 {
      SafeIffBudget(front, remaining - Min(|last|, maxName) - 1);
    }
  }

  lemma {:induction false} FullLengthAtLeast(levels: seq<string>)
    ensures FullLength(levels) >= |levels|
    ensures NonEmptyLevels(levels) ==> FullLength(levels) >= 2 * |levels|
  {
    if |levels| > 0 {
      FullLengthAtLeast(levels[..|levels| - 1]);
    }
  }

  // ---------------------------------------------------------------- greedy optimality

  /** The path that keeps the first `lens[i]` bytes of each level. */
  function Render(levels: seq<string>, lens: seq<nat>): string
    requires |lens| == |levels|
    requires forall i :: 0 <= i < |levels| ==> lens[i] <= |levels[i]|
  {
    if |levels| == 0 then ""
    else
      var n := |levels| - 1;
      Render(levels[..n], lens[..n]) + ("." + ReplaceAll(levels[n], ':', '_')[..lens[n]])
  }

  /** What a vector of kept lengths costs: one separator each. */
  function Cost(lens: seq<nat>): nat {
    if |lens| == 0 then 0 else Cost(lens[..|lens| - 1]) + 1 + lens[|lens| - 1]
  }

  /** Every level keeps between one and all of its bytes, within the budget. */
  ghost predicate Feasible(levels: seq<string>, lens: seq<nat>, remaining: int) {
    && |lens| == |levels|
    && (forall i :: 0 <= i < |levels| ==> 1 <= lens[i] <= |levels[i]|)
    && Cost(lens) <= remaining
  }

  /** Lexicographic order on length vectors, read from the last level backwards. */
  ghost predicate NoBetter(a: seq<nat>, b: seq<nat>)
    requires |a| == |b|
  {
    a == b || exists i :: 0 <= i < |a| && SmallerAt(a, b, i)
  }

  /** `a` is smaller at `i` and equal at every later position. */
  ghost predicate SmallerAt(a: seq<nat>, b: seq<nat>, i: nat)
    requires |a| == |b| && i < |a|
  {
    a[i] < b[i] && forall j :: i < j < |a| ==> a[j] == b[j]
  }

  lemma {:induction false} CostAtLeast(lens: seq<nat>)
    requires forall i :: 0 <= i < |lens| ==> 1 <= lens[i]
    ensures Cost(lens) >= 2 * |lens|
  {
    if |lens| > 0 {
      CostAtLeast(lens[..|lens| - 1]);
    }
  }

  /** normalizePath keeps the best of all feasible vectors. The witness is returned; by
      NoBetter's antisymmetry it is the only one (`BestIsUnique`). */
  lemma {:induction false} GreedyIsOptimal(levels: seq<string>, remaining: int) returns (best: seq<nat>)
    requires NonEmptyLevels(levels)
    requires remaining >= 2 * |levels|
    ensures Feasible(levels, best, remaining)
    ensures NormalizePath(levels, remaining) == Ok(Render(levels, best))
    ensures forall other :: Feasible(levels, other, remaining) ==> NoBetter(other, best)
  {
    if |levels| == 0 {
      best := [];
    } else {
      var n := |levels| - 1;
      var front := levels[..n];
      var kept := Min(|levels[n]|, remaining - n * 2 - 1);
      var init := GreedyIsOptimal(front, remaining - kept - 1);
      best := init + [kept];
      assert best[..n] == init;
      forall other | Feasible(levels, other, remaining) ensures NoBetter(other, best) {
        GreedyStep(levels, remaining, other, init, kept);
      }
      KeepsSome(levels, remaining, init, kept);
    }
  }

  lemma {:induction false} KeepsSome(levels: seq<string>, remaining: int, init: seq<nat>, kept: nat)
    requires |levels| >= 1 && |init| == |levels| - 1 && remaining >= 2 * |levels| - 1
    requires kept == Min(|levels[|init|]|, remaining - |init| * 2 - 1)
    requires forall i :: 0 <= i < |init| ==> init[i] <= |levels[i]|
    requires NormalizePath(levels[..|init|], remaining - kept - 1) == Ok(Render(levels[..|init|], init))
    ensures NormalizePath(levels, remaining) == Ok(Render(levels, init + [kept]))
  {
    assert (init + [kept])[..|init|] == init;
    var last := ReplaceAll(levels[|init|], ':', '_');
    assert |last| <= remaining - |init| * 2 - 1 ==> last[..kept] == last;
  }

  lemma {:induction false} GreedyStep(levels: seq<string>, remaining: int, other: seq<nat>, init: seq<nat>, kept: nat)
    requires |levels| >= 1 && |init| == |levels| - 1
    requires Feasible(levels, other, remaining)
    requires kept == Min(|levels[|levels| - 1]|, remaining - 2 * |init| - 1)
    requires forall o :: Feasible(levels[..|init|], o, remaining - kept - 1) ==> NoBetter(o, init)
    ensures NoBetter(other, init + [kept])
  {
    var n := |init|;
    var rest := other[..n];
    var best := init + [kept];
    CostAtLeast(rest);
    assert other[n] <= kept;
    if other[n] < kept {
      assert SmallerAt(other, best, n);
    } else {
      assert Feasible(levels[..n], rest, remaining - kept - 1);
      assert NoBetter(rest, init);
      if rest == init {
        assert other == best;
      } else {
        var i :| 0 <= i < n && SmallerAt(rest, init, i);
        forall j | i < j < |other| ensures other[j] == best[j] {
          if j < n { assert rest[j] == init[j]; }
        }
        assert SmallerAt(other, best, i);
      }
    }
  }

  /** Two vectors each no better than the other are the same one. */
  lemma BestIsUnique(a: seq<nat>, b: seq<nat>)
    requires |a| == |b| && NoBetter(a, b) && NoBetter(b, a)
    ensures a == b
  {
    forall i, k | 0 <= i < |a| && 0 <= k < |a| && SmallerAt(a, b, i) ensures !SmallerAt(b, a, k) {
      SmallerOneWay(a, b, i, k);
    }
  }

  lemma SmallerOneWay(a: seq<nat>, b: seq<nat>, i: nat, k: nat)
    requires |a| == |b| && i < |a| && k < |a| && SmallerAt(a, b, i)
    ensures !SmallerAt(b, a, k)
  {
  }

  // ---------------------------------------------------------------- the pieces

  /** The levels with every ':' replaced. */
  function Underscored(levels: seq<string>): (r: seq<string>)
    ensures |r| == |levels|
  {
    seq(|levels|, i requires 0 <= i < |levels| => ReplaceAll(levels[i], ':', '_'))
  }

  ghost predicate LevelsLack(levels: seq<string>, c: char) {
    forall i :: 0 <= i < |levels| ==> Lacks(levels[i], c)
  }

  lemma UnderscoredLacks(levels: seq<string>, c: char)
    ensures LevelsLack(levels, ':') ==> Underscored(levels) == levels
    ensures LevelsLack(levels, c) && c != '_' ==> LevelsLack(Underscored(levels), c)
  {
    if LevelsLack(levels, ':') {
      forall i | 0 <= i < |levels| ensures Underscored(levels)[i] == levels[i] {
      }
    }
  }

  /** Each piece is a prefix of its level. */
  ghost predicate PiecesOf(pieces: seq<string>, levels: seq<string>) {
    |pieces| == |levels| && forall i :: 0 <= i < |levels| ==> pieces[i] <= levels[i]
  }

  /** The dotted tail of a session name: a dot before every piece. */
  function Dotted(pieces: seq<string>): string {
    if |pieces| == 0 then "" else Dotted(pieces[..|pieces| - 1]) + ("." + pieces[|pieces| - 1])
  }

  lemma {:induction false} DottedIsJoin(head: string, pieces: seq<string>)
    ensures head + Dotted(pieces) == Join([head] + pieces, '.')
  {
    if |pieces| == 0 {
    } else {
      var n := |pieces| - 1;
      DottedIsJoin(head, pieces[..n]);
      JoinSnoc([head] + pieces[..n], pieces[n], '.');
      assert [head] + pieces == ([head] + pieces[..n]) + [pieces[n]];
      assert head + Dotted(pieces) == (head + Dotted(pieces[..n])) + "." + pieces[n];
    }
  }

  lemma {:induction false} JoinSnoc(parts: seq<string>, last: string, sep: char)
    requires |parts| >= 1
    ensures Join(parts + [last], sep) == Join(parts, sep) + [sep] + last
  {
    if |parts| > 1 {
      assert (parts + [last])[1..] == parts[1..] + [last];
      JoinSnoc(parts[1..], last, sep);
    } else {
      assert (parts + [last])[1..] == [last];
    }
  }

  /** What is left of a level, given the budget and the number of levels before it. */
  function Kept(level: string, before: nat, remaining: int): string
    requires remaining >= 2 * before + 1
  {
    ReplaceAll(level, ':', '_')[..Min(|level|, remaining - 2 * before - 1)]
  }

  /** What is left of each level. */
  function Pieces(levels: seq<string>, remaining: int): (r: seq<string>)
    requires remaining >= 0 && remaining >= 2 * |levels| - 1
    ensures |r| == |levels|
  {
    if |levels| == 0 then []
    else
      var n := |levels| - 1;
      var kept := Kept(levels[n], n, remaining);
      Pieces(levels[..n], remaining - |kept| - 1) + [kept]
  }

  /** The levels from `i` on fit whole, with a dot and a byte reserved for each level before. */
  predicate FitsFrom(levels: seq<string>, remaining: int, i: nat)
    requires i <= |levels|
  {
    FullLength(levels[i..]) + 2 * i <= remaining
  }

  ghost predicate Whole(levels: seq<string>, remaining: int) {
    forall i :: 0 <= i < |levels| ==> FitsFrom(levels, remaining, i)
  }

  /** Every level but the last, seen from the whole path and from the path before it. */
  lemma {:induction false} FrontFits(levels: seq<string>, i: nat)
    requires i < |levels|
    ensures FullLength(levels[i..]) == FullLength(levels[..|levels| - 1][i..]) + 1 + |levels[|levels| - 1]|
  {
    var n := |levels| - 1;
    assert levels[i..][..n - i] == levels[..n][i..];
    assert levels[i..][n - i] == levels[n];
  }

  lemma {:induction false} WholeFront(levels: seq<string>, remaining: int)
    requires |levels| >= 1
    ensures var n := |levels| - 1;
            Whole(levels, remaining) <==>
              Whole(levels[..n], remaining - |levels[n]| - 1) && FitsFrom(levels, remaining, n)
  {
    var n := |levels| - 1;
    var front, r := levels[..n], remaining - |levels[n]| - 1;
    forall i | 0 <= i < n ensures FitsFrom(levels, remaining, i) <==> FitsFrom(front, r, i) {
      FrontFits(levels, i);
    }
    if Whole(levels, remaining) {
      forall i | 0 <= i < |front| ensures FitsFrom(front, r, i) {
        assert FitsFrom(levels, remaining, i);
      }
    }
    if Whole(front, r) && FitsFrom(levels, remaining, n) {
      forall i | 0 <= i < |levels| ensures FitsFrom(levels, remaining, i) {
        assert i < n ==> FitsFrom(front, r, i);
      }
    }
  }

  lemma {:induction false} LastFits(levels: seq<string>, remaining: int)
    requires |levels| >= 1
    ensures FitsFrom(levels, remaining, |levels| - 1) <==> |levels[|levels| - 1]| + 2 * |levels| - 1 <= remaining
  {
    FrontFits(levels, |levels| - 1);
  }

  /** What normalizePath returns is a dot before every piece. */
  lemma {:induction false} PathIsDotted(levels: seq<string>, remaining: int)
    requires remaining >= 0 && remaining >= 2 * |levels| - 1
    ensures NormalizePath(levels, remaining) == Ok(Dotted(Pieces(levels, remaining)))
  {
    if |levels| > 0 {
      var n := |levels| - 1;
      var last := ReplaceAll(levels[n], ':', '_');
      var kept := Kept(levels[n], n, remaining);
      PathIsDotted(levels[..n], remaining - |kept| - 1);
      assert Pieces(levels, remaining)[..n] == Pieces(levels[..n], remaining - |kept| - 1);
      assert |last| <= remaining - 2 * n - 1 ==> kept == last;
      assert NormalizePath(levels, remaining)
          == Append(NormalizePath(levels[..n], remaining - |kept| - 1), "." + kept);
    }
  }

  lemma {:induction false} UnderscoredFront(levels: seq<string>)
    requires |levels| >= 1
    ensures var n := |levels| - 1;
            Underscored(levels) == Underscored(levels[..n]) + [ReplaceAll(levels[n], ':', '_')]
  {
  }

  /** Each piece is a prefix of its level, and nothing is cut exactly when the levels from each one
      on fit whole. */
  lemma {:induction false} PiecesCut(levels: seq<string>, remaining: int)
    requires remaining >= 0 && remaining >= 2 * |levels| - 1
    ensures PiecesOf(Pieces(levels, remaining), Underscored(levels))
    ensures Pieces(levels, remaining) == Underscored(levels) <==> Whole(levels, remaining)
  {
    if |levels| > 0 {
      var n := |levels| - 1;
      var last := ReplaceAll(levels[n], ':', '_');
      var kept := Kept(levels[n], n, remaining);
      var front := Pieces(levels[..n], remaining - |kept| - 1);
      PiecesCut(levels[..n], remaining - |kept| - 1);
      UnderscoredFront(levels);
      SameSnoc(front, kept, Underscored(levels[..n]), last);
      WholeFront(levels, remaining);
      LastFits(levels, remaining);
      assert |kept| == |last| <==> |levels[n]| + 2 * n + 1 <= remaining;
      assert kept <= last;
    }
  }

  lemma {:induction false} PiecesNonEmpty(levels: seq<string>, remaining: int)
    requires NonEmptyLevels(levels) && remaining >= 2 * |levels|
    ensures NonEmptyLevels(Pieces(levels, remaining))
  {
    if |levels| > 0 {
      var n := |levels| - 1;
      PiecesNonEmpty(levels[..n], remaining - |Kept(levels[n], n, remaining)| - 1);
    }
  }

  lemma SameSnoc(a: seq<string>, x: string, b: seq<string>, y: string)
    ensures a + [x] == b + [y] <==> a == b && x == y
  {
    if a + [x] == b + [y] {
      assert |a| == |b|;
      assert (a + [x])[..|a|] == a && (b + [y])[..|a|] == b;
      assert (a + [x])[|a|] == x && (b + [y])[|a|] == y;
    }
  }

  /** The path as pieces: dots before prefixes of the levels, colons replaced, and the whole levels
      exactly when the levels from each one on fit whole. */
  lemma {:induction false} PathPieces(levels: seq<string>, remaining: int)
    requires remaining >= 0 && remaining >= 2 * |levels| - 1
    ensures NormalizePath(levels, remaining) == Ok(Dotted(Pieces(levels, remaining)))
    ensures PiecesOf(Pieces(levels, remaining), Underscored(levels))
    ensures NonEmptyLevels(levels) && remaining >= 2 * |levels| ==> NonEmptyLevels(Pieces(levels, remaining))
    ensures Pieces(levels, remaining) == Underscored(levels) <==> Whole(levels, remaining)
  {
    PathIsDotted(levels, remaining);
    PiecesCut(levels, remaining);
    if NonEmptyLevels(levels) && remaining >= 2 * |levels| {
      PiecesNonEmpty(levels, remaining);
    }
  }

  // ---------------------------------------------------------------- lengths

  lemma {:induction false} DottedLength(levels: seq<string>)
    ensures |Dotted(Underscored(levels))| == FullLength(levels)
  {
    if |levels| > 0 {
      var n := |levels| - 1;
      DottedLength(levels[..n]);
      assert Underscored(levels)[..n] == Underscored(levels[..n]);
    }
  }

  /** The levels from each one on fit whole if all fit and none is empty. */
  lemma {:induction false} FittingIsWhole(levels: seq<string>, remaining: int)
    requires NonEmptyLevels(levels) && FullLength(levels) <= remaining
    ensures Whole(levels, remaining)
  {
    if |levels| > 0 {
      var n := |levels| - 1;
      FittingIsWhole(levels[..n], remaining - |levels[n]| - 1);
      FullLengthAtLeast(levels[..n]);
      WholeFront(levels, remaining);
      LastFits(levels, remaining);
    }
  }

  /** The output never exceeds the budget, and without empty levels it uses all of it or all the
      levels' bytes, whichever is less; if everything fits, it is the dot-joined levels with every
      ':' replaced. */
  lemma {:induction false} ExactLength(levels: seq<string>, remaining: int)
    requires remaining >= 0 && remaining >= 2 * |levels| - 1
    ensures NormalizePath(levels, remaining).Ok?
    ensures |NormalizePath(levels, remaining).value| <= Min(remaining, FullLength(levels))
    ensures NonEmptyLevels(levels) ==>
              |NormalizePath(levels, remaining).value| == Min(remaining, FullLength(levels))
    ensures NonEmptyLevels(levels) && FullLength(levels) <= remaining ==>
              NormalizePath(levels, remaining) == Ok(Dotted(Underscored(levels)))
  {
    if |levels| > 0 {
      var front := levels[..|levels| - 1];
      var last := ReplaceAll(levels[|levels| - 1], ':', '_');
      var kept := Min(|last|, remaining - |front| * 2 - 1);
      ExactLength(front, remaining - kept - 1);
      FullLengthAtLeast(front);
    }
    if NonEmptyLevels(levels) && FullLength(levels) <= remaining {
      FittingIsWhole(levels, remaining);
      PathPieces(levels, remaining);
    }
  }

  lemma {:induction false} CutIsShorter(pieces: seq<string>, levels: seq<string>)
    requires PiecesOf(pieces, levels)
    ensures |Dotted(pieces)| <= |Dotted(levels)|
    ensures pieces != levels ==> |Dotted(pieces)| < |Dotted(levels)|
  {
    if |levels| > 0 {
      var n := |levels| - 1;
      CutIsShorter(pieces[..n], levels[..n]);
      assert pieces[n] <= levels[n] && (|pieces[n]| == |levels[n]| ==> pieces[n] == levels[n]);
      SameSnoc(pieces[..n], pieces[n], levels[..n], levels[n]);
      assert pieces == pieces[..n] + [pieces[n]] && levels == levels[..n] + [levels[n]];
    }
  }

  /** Exactly when nothing is cut, empty levels or not. */
  lemma {:induction false} NothingCutIff(levels: seq<string>, remaining: int)
    requires remaining >= 0 && remaining >= 2 * |levels| - 1
    ensures NormalizePath(levels, remaining) == Ok(Dotted(Underscored(levels))) <==> Whole(levels, remaining)
  {
    PathPieces(levels, remaining);
    CutIsShorter(Pieces(levels, remaining), Underscored(levels));
  }

  lemma {:induction false} FullLengthSplit(levels: seq<string>, i: nat)
    requires i <= |levels|
    ensures FullLength(levels) == FullLength(levels[..i]) + FullLength(levels[i..])
    decreases |levels| - i
  {
    if i == |levels| {
      assert levels[..i] == levels;
    } else {
      FullLengthSplit(levels, i + 1);
      assert levels[..i + 1][..i] == levels[..i];
      FirstLength(levels[i..]);
      assert levels[i..][1..] == levels[i + 1..];
    }
  }

  lemma {:induction false} FirstLength(levels: seq<string>)
    requires |levels| >= 1
    ensures FullLength(levels) == 1 + |levels[0]| + FullLength(levels[1..])
  {
    var n := |levels| - 1;
    if n >= 1 {
      FirstLength(levels[..n]);
      assert levels[..n][1..] == levels[1..][..n - 1];
    } else {
      assert levels[..0] == [] && levels[1..] == [];
    }
  }

  /** What the budget leaves for a path in which the levels before `i` are whole and only as many
      bytes are reserved for them as for levels of one byte. */
  function Room(levels: seq<string>, remaining: int, i: nat): int
    requires i <= |levels|
  {
    remaining - 2 * i + FullLength(levels[..i])
  }

  /** The length of every path, with empty levels and without: the least of all the levels' bytes and
      the rooms at each level. */
  lemma {:induction false} LengthFormula(levels: seq<string>, remaining: int)
    requires remaining >= 0 && remaining >= 2 * |levels| - 1
    ensures NormalizePath(levels, remaining).Ok?
    ensures var l := |NormalizePath(levels, remaining).value|;
            && l <= FullLength(levels) && (forall i :: 0 <= i < |levels| ==> l <= Room(levels, remaining, i))
            && (l == FullLength(levels) || exists i :: 0 <= i < |levels| && l == Room(levels, remaining, i))
  {
    if |levels| > 0 {
      var n := |levels| - 1;
      var front := levels[..n];
      var kept := Kept(levels[n], n, remaining);
      var r := remaining - |kept| - 1;
      LengthFormula(front, r);
      var l' := |NormalizePath(front, r).value|;
      assert |NormalizePath(levels, remaining).value| == l' + |kept| + 1;
      forall i | 0 <= i < n ensures Room(levels, remaining, i) == Room(front, r, i) + |kept| + 1 {
        assert front[..i] == levels[..i];
      }
      if l' == FullLength(front) {
        assert |kept| < |levels[n]| ==> l' + |kept| + 1 == Room(levels, remaining, n);
      } else {
        var i :| 0 <= i < n && l' == Room(front, r, i);
        assert l' + |kept| + 1 == Room(levels, remaining, i);
      }
    }
  }

  /** Exactly when the length is the budget or all the levels' bytes, whichever is less: at every
      level, it and those after it fit whole, or those before it have a byte each on average. */
  lemma {:induction false} ExactLengthIff(levels: seq<string>, remaining: int)
    requires remaining >= 0 && remaining >= 2 * |levels| - 1
    ensures NormalizePath(levels, remaining).Ok?
    ensures |NormalizePath(levels, remaining).value| == Min(remaining, FullLength(levels)) <==>
              forall i :: 0 <= i < |levels| ==> FitsFrom(levels, remaining, i) || FullLength(levels[..i]) >= 2 * i
  {
    LengthFormula(levels, remaining);
    ExactLength(levels, remaining);
    forall i | 0 <= i < |levels|
      ensures Room(levels, remaining, i) >= Min(remaining, FullLength(levels)) <==>
                FitsFrom(levels, remaining, i) || FullLength(levels[..i]) >= 2 * i
    {
      FullLengthSplit(levels, i);
    }
  }

  /** An ARN whose first segment is `prefix` and an account id, as the controllers build it. */
  function RoleARN(prefix: string, account: string, name: string): string {
    prefix + account + ROLE_ARN_SUFFIX + "/" + name
  }

  /** Splitting such an ARN gives the account id back and leaves the name's own levels. */
  lemma {:induction false} RoleARNParts(prefix: string, account: string, name: string)
    requires Lacks(prefix, '/') && Lacks(account, '/')
    ensures LevelsOf(RoleARN(prefix, account, name)) == Split(name, '/')
    ensures AccountOf(RoleARN(prefix, account, name), prefix) == account
  {
    var head := prefix + account + ROLE_ARN_SUFFIX;
    assert RoleARN(prefix, account, name) == head + ['/'] + name;
    SplitCons(head, '/', name);
    assert head[|prefix|..] == account + ROLE_ARN_SUFFIX;
    assert (account + ROLE_ARN_SUFFIX)[|account|..] == ROLE_ARN_SUFFIX;
  }

  /** The whole of normalizeRoleARN on such an ARN. */
  lemma {:induction false} NormalizedName(prefix: string, account: string, name: string)
    requires Lacks(prefix, '/') && Lacks(account, '/')
    ensures NormalizeRoleARN(RoleARN(prefix, account, name), prefix) == SessionNameOf(account, Split(name, '/'))
  {
    RoleARNParts(prefix, account, name);
  }

  /** The three outcomes of the session name and the bound of 64 bytes, for every account id and
      levels, and so for every ARN. */
  lemma SessionNameBound(account: string, levels: seq<string>)
    ensures SessionNameOf(account, levels).Failed? <==> |levels| == 0
    ensures SessionNameOf(account, levels).Panicked? <==> |levels| >= 1 && |account| + 2 * |levels| - 1 > 64
    ensures SessionNameOf(account, levels).Ok? ==> |SessionNameOf(account, levels).value| <= 64
    ensures SessionNameOf(account, levels).Ok? && NonEmptyLevels(levels) ==>
              |SessionNameOf(account, levels).value| == Min(64, |account| + FullLength(levels))
  {
    if |levels| >= 1 {
      SafeIffBudget(levels, 64 - |account|);
      if NormalizePath(levels, 64 - |account|).Ok? {
        ExactLength(levels, 64 - |account|);
      }
    }
  }

  /** With a 12-digit account id exactly the references of up to 26 levels get a session name. */
  lemma TwentySixLevels(roleARN: string, prefix: string)
    requires |AccountOf(roleARN, prefix)| == 12
    ensures NormalizeRoleARN(roleARN, prefix).Ok? <==> 1 <= |LevelsOf(roleARN)| <= 26
  {
    SessionNameBound(AccountOf(roleARN, prefix), LevelsOf(roleARN));
  }

  /** The RoleSessionName alphabet of the AWS STS API Reference, AssumeRole. */
  predicate SessionChar(c: char) {
    'a' <= c <= 'z' || 'A' <= c <= 'Z' || '0' <= c <= '9' || c in "_+=,.@-"
  }

  ghost predicate AllSessionChars(s: string, extra: string) {
    forall i :: 0 <= i < |s| ==> SessionChar(s[i]) || s[i] in extra
  }

  lemma {:induction false} PathAlphabet(levels: seq<string>, remaining: int)
    requires forall i :: 0 <= i < |levels| ==> AllSessionChars(levels[i], ":")
    requires NormalizePath(levels, remaining).Ok?
    ensures AllSessionChars(NormalizePath(levels, remaining).value, "")
  {
    if |levels| > 0 {
      var n := |levels| - 1;
      var last := ReplaceAll(levels[n], ':', '_');
      var maxName := remaining - n * 2 - 1;
      var kept := if |last| > maxName then last[..maxName] else last;
      PathAlphabet(levels[..n], remaining - |kept| - 1);
      assert AllSessionChars(levels[n], ":");
      forall i | 0 <= i < |kept| ensures SessionChar(kept[i]) {
        assert kept[i] == last[i];
        assert levels[n][i] in ":" ==> levels[n][i] == ':';
      }
    }
  }

  /** A session name over permitted levels and a digit account id stays in the alphabet. */
  lemma SessionNameAlphabet(account: string, levels: seq<string>)
    requires SessionNameOf(account, levels).Ok?
    requires AllSessionChars(account, "")
    requires forall i :: 0 <= i < |levels| ==> AllSessionChars(levels[i], ":")
    ensures AllSessionChars(SessionNameOf(account, levels).value, "")
  {
    PathAlphabet(levels, 64 - |account|);
  }

  /** The round trip: splitting the session name on dots gives the account id and one piece per
      level, the whole level if and only if the levels from each one on fit whole. */
  lemma {:induction false} SessionNameRoundTrip(account: string, levels: seq<string>)
    returns (pieces: seq<string>)
    requires SessionNameOf(account, levels).Ok?
    requires Lacks(account, '.') && LevelsLack(levels, '.')
    ensures Split(SessionNameOf(account, levels).value, '.') == [account] + pieces
    ensures PiecesOf(pieces, Underscored(levels))
    ensures LevelsLack(levels, ':') ==> PiecesOf(pieces, levels)
    ensures NonEmptyLevels(levels) && |account| + 2 * |levels| <= 64 ==> NonEmptyLevels(pieces)
    ensures pieces == Underscored(levels) <==> Whole(levels, 64 - |account|)
    ensures NonEmptyLevels(levels) && |account| + FullLength(levels) <= 64 ==> Whole(levels, 64 - |account|)
    ensures |account| + 2 * |levels| - 1 <= 64 && pieces == Pieces(levels, 64 - |account|)
  {
    SessionNameBound(account, levels);
    pieces := Pieces(levels, 64 - |account|);
    NameSplits(account, levels);
    PiecesCut(levels, 64 - |account|);
    UnderscoredLacks(levels, ':');
    if NonEmptyLevels(levels) {
      if |account| + 2 * |levels| <= 64 {
        PiecesNonEmpty(levels, 64 - |account|);
      }
      if |account| + FullLength(levels) <= 64 {
        FittingIsWhole(levels, 64 - |account|);
      }
    }
  }

  lemma {:induction false} NameSplits(account: string, levels: seq<string>)
    requires |levels| >= 1 && |account| + 2 * |levels| - 1 <= 64
    requires Lacks(account, '.') && LevelsLack(levels, '.')
    ensures SessionNameOf(account, levels).Ok?
    ensures Split(SessionNameOf(account, levels).value, '.') == [account] + Pieces(levels, 64 - |account|)
  {
    var pieces := Pieces(levels, 64 - |account|);
    PathIsDotted(levels, 64 - |account|);
    NameIs(account, levels, Dotted(pieces));
    PiecesSplit(account, levels, 64 - |account|);
  }

  lemma {:induction false} NameIs(account: string, levels: seq<string>, path: string)
    requires |levels| >= 1 && NormalizePath(levels, 64 - |account|) == Ok(path)
    ensures SessionNameOf(account, levels) == Ok(account + path)
  {
  }

  lemma {:induction false} PiecesSplit(account: string, levels: seq<string>, budget: int)
    requires budget >= 0 && budget >= 2 * |levels| - 1
    requires Lacks(account, '.') && LevelsLack(levels, '.')
    ensures Split(account + Dotted(Pieces(levels, budget)), '.') == [account] + Pieces(levels, budget)
  {
    PiecesCut(levels, budget);
    UnderscoredLacks(levels, '.');
    DottedSplits(account, Pieces(levels, budget), Underscored(levels));
  }

  lemma {:induction false} DottedSplits(account: string, pieces: seq<string>, levels: seq<string>)
    requires Lacks(account, '.') && LevelsLack(levels, '.') && PiecesOf(pieces, levels)
    ensures Split(account + Dotted(pieces), '.') == [account] + pieces
  {
    DottedIsJoin(account, pieces);
    var parts := [account] + pieces;
    forall i | 0 <= i < |parts| ensures Lacks(parts[i], '.') {
      if i > 0 {
        assert pieces[i - 1] <= levels[i - 1];
        assert Lacks(levels[i - 1], '.');
      }
    }
    SplitJoin(parts, '.');
  }

  /** An account id and levels that dots and colons do not blur. */
  ghost predicate Plain(account: string, levels: seq<string>) {
    Lacks(account, '.') && LevelsLack(levels, '.') && LevelsLack(levels, ':')
  }

  /** Nothing is cut. */
  ghost predicate Untruncated(account: string, levels: seq<string>) {
    Plain(account, levels) && SessionNameOf(account, levels).Ok? && Whole(levels, 64 - |account|)
  }

  lemma SameParts(account: string, pieces: seq<string>, account': string, pieces': seq<string>)
    requires [account] + pieces == [account'] + pieces'
    ensures account == account' && pieces == pieces'
  {
    assert ([account] + pieces)[0] == ([account'] + pieces')[0];
    assert ([account] + pieces)[1..] == pieces && ([account'] + pieces')[1..] == pieces';
  }

  /** Untruncated session names are injective in the account id and the levels. */
  lemma {:induction false} SessionNameInjective(account: string, levels: seq<string>, account': string,
          levels': seq<string>)
    requires Untruncated(account, levels) && Untruncated(account', levels')
    requires SessionNameOf(account, levels) == SessionNameOf(account', levels')
    ensures account == account' && levels == levels'
  {
    UnderscoredLacks(levels, ':');
    UnderscoredLacks(levels', ':');
    var p := SessionNameRoundTrip(account, levels);
    var p' := SessionNameRoundTrip(account', levels');
    SameParts(account, p, account', p');
  }

  // ---------------------------------------------------------------- where injectivity ends

  /** The levels from each one on fit with a byte to spare. */
  ghost predicate Roomy(levels: seq<string>, remaining: int) {
    Whole(levels, remaining - 1)
  }

  lemma {:induction false} RoomyFront(levels: seq<string>, remaining: int)
    requires |levels| >= 1
    ensures var n := |levels| - 1;
            Roomy(levels, remaining) <==>
              Roomy(levels[..n], remaining - |levels[n]| - 1) && FitsFrom(levels, remaining - 1, n)
  {
    WholeFront(levels, remaining - 1);
  }

  /** Some levels have got a byte more. */
  ghost predicate Lengthened(levels: seq<string>, other: seq<string>) {
    && |other| == |levels| && other != levels
    && forall i :: 0 <= i < |levels| ==> other[i] == levels[i] || other[i] == levels[i] + "a"
  }

  lemma {:induction false} PiecesSnoc(front: seq<string>, level: string, remaining: int)
    requires remaining >= 0 && remaining >= 2 * |front| + 1
    ensures var kept := Kept(level, |front|, remaining);
            Pieces(front + [level], remaining) == Pieces(front, remaining - |kept| - 1) + [kept]
  {
    var levels := front + [level];
    assert levels[..|levels| - 1] == front && levels[|levels| - 1] == level;
  }

  lemma {:induction false} LongerFront(levels: seq<string>, other: seq<string>, last: string, remaining: int)
    requires remaining >= 2 * |levels| + 1 && Lengthened(levels, other)
    requires var r := remaining - |Kept(last, |levels|, remaining)| - 1; Pieces(other, r) == Pieces(levels, r)
    ensures Lengthened(levels + [last], other + [last])
    ensures Pieces(other + [last], remaining) == Pieces(levels + [last], remaining)
  {
    PiecesSnoc(levels, last, remaining);
    PiecesSnoc(other, last, remaining);
    SameSnoc(levels, last, other, last);
  }

  lemma {:induction false} LongerLast(levels: seq<string>, last: string, remaining: int)
    requires remaining >= 2 * |levels| + 1 && |last| >= remaining - 2 * |levels| - 1
    ensures Lengthened(levels + [last], levels + [last + "a"])
    ensures Pieces(levels + [last + "a"], remaining) == Pieces(levels + [last], remaining)
  {
    assert Kept(last + "a", |levels|, remaining) == Kept(last, |levels|, remaining);
    PiecesSnoc(levels, last, remaining);
    PiecesSnoc(levels, last + "a", remaining);
    assert |last + "a"| != |last|;
    SameSnoc(levels, last, levels, last + "a");
  }

  /** Where a level fills its budget or is cut, a byte more at its end changes nothing. */
  lemma {:induction false} LongerLevel(levels: seq<string>, remaining: int) returns (other: seq<string>)
    requires remaining >= 0 && remaining >= 2 * |levels| - 1 && !Roomy(levels, remaining)
    ensures Lengthened(levels, other) && Pieces(other, remaining) == Pieces(levels, remaining)
  {
    var n := |levels| - 1;
    var front, last := levels[..n], levels[n];
    assert levels == front + [last];
    RoomyFront(levels, remaining);
    LastFits(levels, remaining - 1);
    if FitsFrom(levels, remaining - 1, n) {
      var longer := LongerLevel(front, remaining - |last| - 1);
      LongerFront(front, longer, last, remaining);
      other := longer + [last];
    } else {
      LongerLast(front, last, remaining);
      other := front + [last + "a"];
    }
  }

  /** So wherever a level fills its budget or is cut, another path shares the outcome. */
  lemma {:induction false} CutCollides(levels: seq<string>, remaining: int) returns (other: seq<string>)
    requires remaining >= 0 && remaining >= 2 * |levels| - 1 && !Roomy(levels, remaining)
    ensures Lengthened(levels, other) && NormalizePath(other, remaining) == NormalizePath(levels, remaining)
  {
    other := LongerLevel(levels, remaining);
    PathIsDotted(levels, remaining);
    PathIsDotted(other, remaining);
  }

  lemma {:induction false} RoomyLast(front: seq<string>, last: string, front': seq<string>, last': string,
          remaining: int)
    requires |front'| == |front| && |last| < remaining - 2 * |front| - 1
    requires Lacks(last, ':') && Lacks(last', ':')
    requires Pieces(front' + [last'], remaining) == Pieces(front + [last], remaining)
    ensures last' == last
    ensures var r := remaining - |last| - 1; Pieces(front', r) == Pieces(front, r)
  {
    var kept, kept' := Kept(last, |front|, remaining), Kept(last', |front|, remaining);
    PiecesSnoc(front, last, remaining);
    PiecesSnoc(front', last', remaining);
    SameSnoc(Pieces(front', remaining - |kept'| - 1), kept', Pieces(front, remaining - |kept| - 1), kept);
    KeptWhole(last, last', |front|, remaining);
  }

  /** Levels that fit with a byte to spare are the only ones with these pieces. */
  lemma {:induction false} RoomyIsOnly(levels: seq<string>, other: seq<string>, remaining: int)
    requires remaining >= 0 && remaining >= 2 * |levels| - 1 && |other| == |levels|
    requires LevelsLack(levels, ':') && LevelsLack(other, ':') && Roomy(levels, remaining)
    requires Pieces(other, remaining) == Pieces(levels, remaining)
    ensures other == levels
  {
    if |levels| > 0 {
      var n := |levels| - 1;
      RoomyFront(levels, remaining);
      LastFits(levels, remaining - 1);
      assert levels == levels[..n] + [levels[n]] && other == other[..n] + [other[n]];
      RoomyLast(levels[..n], levels[n], other[..n], other[n], remaining);
      RoomyIsOnly(levels[..n], other[..n], remaining - |levels[n]| - 1);
    }
  }

  lemma {:induction false} KeptWhole(level: string, other: string, before: nat, remaining: int)
    requires remaining >= 2 * before + 1 && |level| < remaining - 2 * before - 1
    requires Lacks(level, ':') && Lacks(other, ':') && Kept(other, before, remaining) == Kept(level, before, remaining)
    ensures other == level && Kept(level, before, remaining) == level
  {
    assert ReplaceAll(level, ':', '_') == level && ReplaceAll(other, ':', '_') == other;
    assert Kept(level, before, remaining) == level;
    assert |Kept(other, before, remaining)| == Min(|other|, remaining - 2 * before - 1);
    assert other[..|other|] == other;
  }

  /** No other account id and levels have this session name. */
  ghost predicate Determined(account: string, levels: seq<string>) {
    forall account', levels' ::
      Plain(account', levels') && SessionNameOf(account', levels') == SessionNameOf(account, levels) ==>
        account' == account && levels' == levels
  }

  lemma {:induction false} RoomyDetermines(account: string, levels: seq<string>, account': string, levels': seq<string>)
    requires Plain(account, levels) && Plain(account', levels') && Roomy(levels, 64 - |account|)
    requires SessionNameOf(account, levels).Ok? && SessionNameOf(account', levels') == SessionNameOf(account, levels)
    ensures account' == account && levels' == levels
  {
    SessionNameBound(account, levels);
    SessionNameBound(account', levels');
    NameSplits(account, levels);
    NameSplits(account', levels');
    SameParts(account, Pieces(levels, 64 - |account|), account', Pieces(levels', 64 - |account'|));
    RoomyIsOnly(levels, levels', 64 - |account|);
  }

  lemma {:induction false} CrampedCollides(account: string, levels: seq<string>) returns (other: seq<string>)
    requires Plain(account, levels) && !Roomy(levels, 64 - |account|) && SessionNameOf(account, levels).Ok?
    ensures Plain(account, other) && SessionNameOf(account, other) == SessionNameOf(account, levels) && other != levels
  {
    SessionNameBound(account, levels);
    other := CutCollides(levels, 64 - |account|);
    forall i | 0 <= i < |other| ensures Lacks(other[i], '.') && Lacks(other[i], ':') {
      assert Lacks(levels[i], '.') && Lacks(levels[i], ':');
    }
  }

  /** A session name determines what it was made from exactly when the levels from each one on fit
      with a byte to spare. */
  lemma {:induction false} DeterminedIff(account: string, levels: seq<string>)
    requires Plain(account, levels) && SessionNameOf(account, levels).Ok?
    ensures Determined(account, levels) <==> Roomy(levels, 64 - |account|)
  {
    if Roomy(levels, 64 - |account|) {
      forall account', levels' |
        Plain(account', levels') && SessionNameOf(account', levels') == SessionNameOf(account, levels)
        ensures account' == account && levels' == levels
      {
        RoomyDetermines(account, levels, account', levels');
      }
    } else {
      var other := CrampedCollides(account, levels);
    }
  }

  /** With a 12-digit account id, any two role names that differ only beyond the 51st byte share
      their session name. */
  lemma TruncationCollides(account: string, name: string, x: string, y: string)
    requires |account| == 12 && |name| == 51 && x != y
    ensures [name + x] != [name + y]
    ensures SessionNameOf(account, [name + x]) == SessionNameOf(account, [name + y])
    ensures SessionNameOf(account, [name + x]).Ok?
  {
    assert (name + x)[51..] == x && (name + y)[51..] == y;
    CutSingle(name, x);
    CutSingle(name, y);
  }

  lemma {:induction false} CutSingle(name: string, rest: string)
    requires |name| == 51
    ensures NormalizePath([name + rest], 52) == Ok("." + ReplaceAll(name, ':', '_'))
  {
    PathPieces([name + rest], 52);
    assert [name + rest][..0] == [];
    assert Kept(name + rest, 0, 52) == ReplaceAll(name, ':', '_');
    assert Pieces([name + rest], 52) == [ReplaceAll(name, ':', '_')];
    assert [ReplaceAll(name, ':', '_')][..0] == [];
    assert "" + ("." + ReplaceAll(name, ':', '_')) == "." + ReplaceAll(name, ':', '_');
  }

  /** Reserving a byte for an empty level wastes it: after a leading slash a role name of 50 bytes
      would fit next to a 12-digit account id, and yet its last byte is cut. */
  lemma EmptyLevelsWasteBudget(account: string, name: string)
    requires |account| == 12 && |name| == 50
    ensures Lacks(name, '/') ==> Split("/" + name, '/') == ["", name]
    ensures |account| + FullLength(["", name]) == 64
    ensures SessionNameOf(account, ["", name]).Ok? && |SessionNameOf(account, ["", name]).value| == 63
    ensures !Whole(["", name], 52)
  {
    var levels := ["", name];
    assert levels[..1] == [""] && levels[1..] == [name] && [""][..0] == [] && [name][..0] == [];
    assert FullLength([""]) == 1 && FullLength([name]) == 51;
    assert !FitsFrom(levels, 52, 1);
    LengthFormula(levels, 52);
    assert levels[..0] == [];
    assert Room(levels, 52, 0) == 52 && Room(levels, 52, 1) == 51;
    if Lacks(name, '/') {
      SplitCons("", '/', name);
      SplitLacks(name, '/');
      assert "" + ['/'] + name == "/" + name;
    }
  }

  // ---------------------------------------------------------------- names and full ARNs

  /** The prefix the process derives from its own base ARN is the one the base starts with. */
  lemma PrefixOfBase(partition: string, account: string)
    requires Lacks(partition, ':')
    ensures GetPrefixFromARN(RoleARN("arn:" + partition + ":iam::", account, ""))
         == Ok("arn:" + partition + ":iam::")
  {
    var t5 := account + [':'] + "role/";
    var t4 := "" + [':'] + t5;
    var t3 := "iam" + [':'] + t4;
    var t2 := partition + [':'] + t3;
    var arn := RoleARN("arn:" + partition + ":iam::", account, "");
    assert arn == "arn" + [':'] + t2 by {
      assert arn == "arn:" + partition + ":iam::" + t5 by {
        assert ":role" + "/" + "" == [':'] + "role/";
        assert account + (":role" + "/" + "") == t5;
      }
      assert ":iam::" + t5 == [':'] + t3;
      assert arn == "arn:" + (partition + (":iam::" + t5));
      assert arn == "arn:" + t2;
    }
    SixSections("arn", partition, "iam", "", account, "role/");
    assert arn[..4] == "arn:";
  }

  /** Exactly which ARNs have a prefix, and which: six sections or more, of which the first is "arn" and
      the second goes into the prefix. */
  lemma {:induction false} PrefixIff(inputARN: string)
    ensures var sections := Split(inputARN, ':');
            GetPrefixFromARN(inputARN)
            == if |sections| >= 6 && sections[0] == "arn" then Ok("arn:" + sections[1] + ":iam::") else Failed
  {
    SplitNIsSplit(inputARN, ':', 6);
    StartsWithArn(inputARN);
  }

  lemma {:induction false} StartsWithArn(s: string)
    ensures "arn:" <= s <==> |Split(s, ':')| >= 2 && Split(s, ':')[0] == "arn"
  {
    SplitsIff(s, ':');
    if "arn:" <= s {
      assert s == "arn" + [':'] + s[4..];
      SplitCons("arn", ':', s[4..]);
    }
    if |Split(s, ':')| >= 2 {
      SplitHeadLength(s, ':');
    }
  }

  lemma SixSections(a: string, b: string, c: string, d: string, e: string, f: string)
    requires Lacks(a, ':') && Lacks(b, ':') && Lacks(c, ':') && Lacks(d, ':')
    ensures var sections := SplitN(a + [':'] + (b + [':'] + (c + [':'] + (d + [':'] + (e + [':'] + f)))), ':', 6);
            |sections| == 6 && sections[1] == b
  {
    var t5 := e + [':'] + f;
    var t4 := d + [':'] + t5;
    var t3 := c + [':'] + t4;
    var t2 := b + [':'] + t3;
    SplitNCons(a, ':', t2, 6);
    SplitNCons(b, ':', t3, 5);
    SplitNCons(c, ':', t4, 4);
    SplitNCons(d, ':', t5, 3);
    assert t5[|e|] == ':';
  }

  /** Role resolution is idempotent. */
  lemma ResolveIdempotent(base: string, prefix: string, role: string)
    requires HasPrefix(base, prefix)
    ensures Resolve(base, prefix, Resolve(base, prefix, role)) == Resolve(base, prefix, role)
  {
    if !HasPrefix(role, prefix) {
      assert base + role == prefix + (base[|prefix|..] + role);
    }
  }

  /** What Get sends for a role ARN of an account id and levels: the ARN itself, and under it the
      account id and the normalised path, unless the levels do not fit. */
  ghost predicate Sends(request: Outcome<AssumeRoleInput>, arn: string, account: string, levels: seq<string>) {
    && !request.Failed?
    && (request.Panicked? <==> |account| + 2 * |levels| - 1 > 64)
    && (request.Ok? ==>
          && request.value.roleArn == arn && NormalizePath(levels, 64 - |account|).Ok?
          && request.value.roleSessionName == account + NormalizePath(levels, 64 - |account|).value)
  }

  /** What Get does, for any base ARN, prefix and role: an error exactly where the resolved ARN has no
      slash, or else the request for that ARN, its account id and its levels. */
  lemma {:induction false} RequestIs(base: string, prefix: string, role: string)
    ensures var arn := if prefix <= role then role else base + role;
            if Lacks(arn, '/') then Request(base, prefix, role).Failed?
            else Sends(Request(base, prefix, role), arn, AccountOf(arn, prefix), LevelsOf(arn))
  {
    var arn := Resolve(base, prefix, role);
    SplitsIff(arn, '/');
    if !Lacks(arn, '/') {
      NameSends(arn, AccountOf(arn, prefix), LevelsOf(arn), Request(base, prefix, role));
    }
  }

  lemma {:induction false} NameSends(arn: string, account: string, levels: seq<string>,
          request: Outcome<AssumeRoleInput>)
    requires |levels| >= 1
    requires var name := SessionNameOf(account, levels);
             request == if name.Ok? then Ok(AssumeRoleInput(arn, name.value))
                        else if name.Failed? then Failed else Panicked
    ensures Sends(request, arn, account, levels)
  {
    SafeIffBudget(levels, 64 - |account|);
  }

  lemma {:induction false} ResolvedSends(base: string, prefix: string, role: string, account: string, name: string)
    requires Lacks(prefix, '/') && Lacks(account, '/') && Resolve(base, prefix, role) == RoleARN(prefix, account, name)
    ensures Sends(Request(base, prefix, role), prefix + account + ":role/" + name, account, Split(name, '/'))
  {
    RoleARNParts(prefix, account, name);
    HasSlash(prefix, account, name);
    RequestIs(base, prefix, role);
  }

  lemma HasSlash(prefix: string, account: string, name: string)
    ensures !Lacks(RoleARN(prefix, account, name), '/')
    ensures RoleARN(prefix, account, name) == prefix + account + ":role/" + name
  {
    assert RoleARN(prefix, account, name)[|prefix + account + ":role"|] == '/';
  }

  lemma {:induction false} ResolvedBoth(prefix: string, account: string, name: string)
    requires !HasPrefix(name, prefix)
    ensures var base := RoleARN(prefix, account, "");
            Resolve(base, prefix, name) == Resolve(base, prefix, base + name) == RoleARN(prefix, account, name)
  {
    var base := RoleARN(prefix, account, "");
    assert base + name == RoleARN(prefix, account, name);
    assert RoleARN(prefix, account, name) == prefix + (account + ROLE_ARN_SUFFIX + "/" + name);
  }

  /** A role given by name and the same role given by its full ARN ask STS for the same thing: the full
      ARN, under the account id and the normalised path of the name's levels. The request is never
      refused as malformed, and panics exactly when the levels do not fit. */
  lemma {:induction false} NameAndArnAgree(prefix: string, account: string, name: string)
    requires Lacks(prefix, '/') && Lacks(account, '/')
    requires !HasPrefix(name, prefix)
    ensures var base := RoleARN(prefix, account, "");
            && Request(base, prefix, name) == Request(base, prefix, base + name)
            && Sends(Request(base, prefix, name), prefix + account + ":role/" + name, account, Split(name, '/'))
  {
    var base := RoleARN(prefix, account, "");
    ResolvedBoth(prefix, account, name);
    ResolvedSends(base, prefix, name, account, name);
  }
}
