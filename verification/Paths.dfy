/** Slash-separated paths and the lexical rules of path/filepath on a Unix host. A path is whether it
    starts at the root and its non-empty elements; "." is the relative path with none. */
module Paths {

  datatype Option<T> = None | Some(value: T)

  datatype Path = Path(rooted: bool, parts: seq<string>)

  function Last<T>(s: seq<T>): T requires s != [] { s[|s| - 1] }

  /** One element taken onto the elements cleaned so far. */
  function Taken(rooted: bool, stack: seq<string>, part: string): seq<string> {
    if part == "." then stack
    else if part != ".." then stack + [part]
    else if stack != [] && Last(stack) != ".." then stack[..|stack| - 1]
    else if rooted then stack
    else stack + [".."]
  }

  function CleanOnto(rooted: bool, stack: seq<string>, parts: seq<string>): seq<string>
    decreases |parts|
  {
    if parts == [] then stack else CleanOnto(rooted, Taken(rooted, stack, parts[0]), parts[1..])
  }

  function Clean(p: Path): Path {
    Path(p.rooted, CleanOnto(p.rooted, [], p.parts))
  }

  predicate Plain(parts: seq<string>) {
    forall k :: 0 <= k < |parts| ==> parts[k] != "." && parts[k] != ".."
  }

  /** An absolute directory with nothing left to clean. */
  predicate CleanDir(dir: Path) {
    dir.rooted && Plain(dir.parts)
  }

  function Join(dir: Path, p: Path): Path {
    Clean(Path(dir.rooted, dir.parts + p.parts))
  }

  predicate Escapes(cleaned: Path) {
    cleaned.parts != [] && cleaned.parts[0] == ".."
  }

  /** filepath.IsLocal of a non-empty path. */
  predicate IsLocal(p: Path) {
    !p.rooted && !Escapes(Clean(p))
  }

  function CommonPrefix(a: seq<string>, b: seq<string>): nat {
    if a == [] || b == [] || a[0] != b[0] then 0 else 1 + CommonPrefix(a[1..], b[1..])
  }

  function Ups(n: nat): seq<string> { seq(n, _ => "..") }

  /** filepath.Rel; None is its error. */
  function Rel(base: Path, target: Path): Option<Path> {
    var b, t := Clean(base), Clean(target);
    if b.rooted != t.rooted then None
    else
      var c := CommonPrefix(b.parts, t.parts);
      CommonPrefixFits(b.parts, t.parts);
      if c < |b.parts| && b.parts[c] == ".." then None
      else Some(Path(false, Ups(|b.parts| - c) + t.parts[c..]))
  }

  function Base(p: Path): Path {
    if p.parts == [] then p else Path(false, [Last(p.parts)])
  }

  function Dir(p: Path): Path {
    Clean(Path(p.rooted, if p.parts == [] then [] else p.parts[..|p.parts| - 1]))
  }

  /** core.within: whether path sits inside dir, as spelled. */
  predicate Within(dir: Path, path: Path) {
    var rel := Rel(Clean(dir), Clean(path));
    rel.Some? && !Escapes(rel.value)
  }

  // ---- lexical facts ----

  lemma {:induction false} CommonPrefixFits(a: seq<string>, b: seq<string>)
    ensures CommonPrefix(a, b) <= |a| && CommonPrefix(a, b) <= |b|
    ensures a[..CommonPrefix(a, b)] == b[..CommonPrefix(a, b)]
  {
    if a != [] && b != [] && a[0] == b[0] {
      CommonPrefixFits(a[1..], b[1..]);
      assert a == [a[0]] + a[1..] && b == [b[0]] + b[1..];
    }
  }

  lemma {:induction false} CommonPrefixOfExtension(a: seq<string>, rest: seq<string>)
    ensures CommonPrefix(a, a + rest) == |a|
  {
    if a != [] {
      assert (a + rest)[1..] == a[1..] + rest;
      CommonPrefixOfExtension(a[1..], rest);
    }
  }

  lemma {:induction false} CleanPlain(rooted: bool, stack: seq<string>, parts: seq<string>)
    requires Plain(parts)
    ensures CleanOnto(rooted, stack, parts) == stack + parts
    decreases |parts|
  {
    if parts != [] {
      CleanPlain(rooted, stack + [parts[0]], parts[1..]);
      assert stack + [parts[0]] + parts[1..] == stack + parts;
    }
  }

  lemma PlainIsClean(p: Path)
    requires Plain(p.parts)
    ensures Clean(p) == p
  {
    CleanPlain(p.rooted, [], p.parts);
    assert [] + p.parts == p.parts;
  }

  lemma JoinPlain(dir: Path, p: Path)
    requires Plain(dir.parts) && Plain(p.parts)
    ensures Join(dir, p) == Path(dir.rooted, dir.parts + p.parts) && Plain(dir.parts + p.parts)
    ensures !p.rooted ==> IsLocal(p)
  {
    PlainIsClean(Path(dir.rooted, dir.parts + p.parts));
    PlainIsClean(p);
  }

  /** What a cleaned stack looks like: some ".." at the front of a relative path, then plain elements. */
  ghost predicate Stacked(rooted: bool, stack: seq<string>, ups: nat) {
    ups <= |stack| && (rooted ==> ups == 0) && (forall k :: 0 <= k < ups ==> stack[k] == "..") && Plain(stack[ups..])
  }

  lemma {:induction false} CleanIsStacked(rooted: bool, stack: seq<string>, parts: seq<string>, ups: nat)
    returns (ups': nat)
    requires Stacked(rooted, stack, ups)
    ensures Stacked(rooted, CleanOnto(rooted, stack, parts), ups') && ups <= ups'
    decreases |parts|
  {
    ups' := ups;
    if parts != [] {
      var next := Taken(rooted, stack, parts[0]);
      var n := ups;
      assert ups < |stack| ==> stack[ups..][|stack| - ups - 1] == Last(stack);
      if parts[0] == ".." && !(stack != [] && Last(stack) != "..") && !rooted {
        n := ups + 1;
      } else if parts[0] == ".." && stack != [] && Last(stack) != ".." {
        assert ups < |stack|;
        assert next[ups..] == stack[ups..][..|stack| - ups - 1];
      } else if parts[0] != "." && parts[0] != ".." {
        assert next[ups..] == stack[ups..] + [parts[0]];
      }
      ups' := CleanIsStacked(rooted, next, parts[1..], n);
    }
  }

  lemma {:induction false} CleanUps(stack: seq<string>, n: nat)
    requires forall k :: 0 <= k < |stack| ==> stack[k] == ".."
    ensures CleanOnto(false, stack, Ups(n)) == stack + Ups(n)
    decreases n
  {
    if n > 0 {
      assert Ups(n)[1..] == Ups(n - 1);
      CleanUps(stack + [".."], n - 1);
      assert stack + [".."] + Ups(n - 1) == stack + Ups(n);
    }
  }

  lemma {:induction false} CleanInTwo(rooted: bool, stack: seq<string>, a: seq<string>, b: seq<string>)
    ensures CleanOnto(rooted, stack, a + b) == CleanOnto(rooted, CleanOnto(rooted, stack, a), b)
    decreases |a|
  {
    if a == [] {
      assert a + b == b;
    } else {
      assert (a + b)[1..] == a[1..] + b;
      CleanInTwo(rooted, Taken(rooted, stack, a[0]), a[1..], b);
    }
  }

  lemma CleanTwice(p: Path)
    ensures Clean(Clean(p)) == Clean(p)
  {
    var c := Clean(p).parts;
    var ups := CleanIsStacked(p.rooted, [], p.parts, 0);
    assert c == c[..ups] + c[ups..];
    CleanInTwo(p.rooted, [], c[..ups], c[ups..]);
    assert CleanOnto(p.rooted, [], c[..ups]) == c[..ups] by {
      if !p.rooted {
        assert c[..ups] == Ups(ups) && [] + Ups(ups) == Ups(ups);
        CleanUps([], ups);
      }
    }
    CleanPlain(p.rooted, c[..ups], c[ups..]);
  }

  lemma EscapesByUps(c: Path, ups: nat)
    requires Stacked(false, c.parts, ups)
    ensures Escapes(c) <==> ups > 0
  {
    if ups == 0 { assert c.parts[0..] == c.parts; }
  }

  /** A relative path that does not escape is plain once cleaned. */
  lemma LocalIsPlain(p: Path)
    requires IsLocal(p)
    ensures Plain(Clean(p).parts)
  {
    var ups := CleanIsStacked(false, [], p.parts, 0);
    EscapesByUps(Clean(p), ups);
    assert Clean(p).parts[0..] == Clean(p).parts;
  }

  lemma EscapedStays(parts: seq<string>)
    ensures !Plain(CleanOnto(false, [".."], parts))
  {
    var ups := CleanIsStacked(false, [".."], parts, 1);
    assert CleanOnto(false, [".."], parts)[0] == "..";
  }

  lemma TakenAbove(dir: seq<string>, stack: seq<string>, part: string)
    requires Plain(dir) && Plain(stack) && !(part == ".." && stack == [])
    ensures Taken(true, dir + stack, part) == dir + Taken(false, stack, part) && Plain(Taken(false, stack, part))
  {
    if part == ".." {
      assert Last(dir + stack) == Last(stack);
      assert (dir + stack)[..|dir + stack| - 1] == dir + stack[..|stack| - 1];
    } else if part != "." {
      assert dir + stack + [part] == dir + (stack + [part]);
    }
  }

  /** Cleaning a local path on top of a directory's elements never eats into them: where the path alone
      cleans to some plain stack, on top of the directory it cleans to the directory and that stack. */
  lemma {:induction false} CleanAbove(dir: seq<string>, stack: seq<string>, parts: seq<string>)
    requires Plain(dir) && Plain(stack) && Plain(CleanOnto(false, stack, parts))
    ensures CleanOnto(true, dir + stack, parts) == dir + CleanOnto(false, stack, parts)
    decreases |parts|
  {
    if parts != [] {
      EscapedStays(parts[1..]);
      assert stack == [] ==> stack + [".."] == [".."];
      TakenAbove(dir, stack, parts[0]);
      CleanAbove(dir, Taken(false, stack, parts[0]), parts[1..]);
    }
  }

  /** Joining a local path onto an absolute clean directory appends its cleaned elements. */
  lemma JoinLocal(dir: Path, p: Path)
    requires CleanDir(dir) && IsLocal(p)
    ensures Join(dir, p) == Path(true, dir.parts + Clean(p).parts)
    ensures CleanDir(Join(dir, p)) && Within(dir, Join(dir, p))
  {
    LocalIsPlain(p);
    var tail := Clean(p).parts;
    CleanInTwo(true, [], dir.parts, p.parts);
    CleanPlain(true, [], dir.parts);
    assert [] + dir.parts == dir.parts && dir.parts + [] == dir.parts;
    CleanAbove(dir.parts, [], p.parts);
    InsideIsWithin(dir, tail);
  }

  /** What lies below a clean directory is relative to it as its own elements. */
  lemma RelOfInside(dir: Path, tail: seq<string>)
    requires CleanDir(dir) && Plain(tail)
    ensures CleanDir(Path(true, dir.parts + tail))
    ensures Rel(dir, Path(true, dir.parts + tail)) == Some(Path(false, tail))
  {
    var p := Path(true, dir.parts + tail);
    PlainIsClean(dir);
    PlainIsClean(p);
    CommonPrefixOfExtension(dir.parts, tail);
    assert Ups(0) + p.parts[|dir.parts|..] == tail;
  }

  lemma InsideIsWithin(dir: Path, tail: seq<string>)
    requires CleanDir(dir) && Plain(tail)
    ensures Within(dir, Path(true, dir.parts + tail))
  {
    RelOfInside(dir, tail);
    PlainIsClean(dir);
    PlainIsClean(Path(true, dir.parts + tail));
  }

  // ---- what cleaning keeps, and what being inside means ----

  /** One element walked from a directory that is so far below the root. */
  function Stepped(at: seq<string>, part: string): seq<string> {
    if part == "." then at else if part != ".." then at + [part] else if at == [] then at else at[..|at| - 1]
  }

  /** Where a path leads from there, links aside. */
  function Walk(from: seq<string>, parts: seq<string>): seq<string>
    decreases |parts|
  {
    if parts == [] then from else Walk(Stepped(from, parts[0]), parts[1..])
  }

  lemma {:induction false} WalkInTwo(from: seq<string>, a: seq<string>, b: seq<string>)
    ensures Walk(from, a + b) == Walk(Walk(from, a), b)
    decreases |a|
  {
    if a == [] {
      assert a + b == b;
    } else {
      assert (a + b)[1..] == a[1..] + b;
      WalkInTwo(Stepped(from, a[0]), a[1..], b);
    }
  }

  lemma WalkOne(from: seq<string>, part: string)
    ensures Walk(from, [part]) == Stepped(from, part)
  {
  }

  lemma TakenLeadsThere(rooted: bool, from: seq<string>, stack: seq<string>, part: string, ups: nat)
    requires Stacked(rooted, stack, ups) && (rooted ==> from == [])
    ensures Walk(from, Taken(rooted, stack, part)) == Stepped(Walk(from, stack), part)
  {
    assert ups < |stack| ==> stack[ups..][|stack| - ups - 1] == Last(stack);
    if part == ".." && stack != [] && Last(stack) != ".." {
      var front, last := stack[..|stack| - 1], Last(stack);
      assert stack == front + [last];
      assert ups < |stack| && stack[ups..][|stack| - ups - 1] == last;
      WalkInTwo(from, front, [last]);
      WalkOne(Walk(from, front), last);
    } else if part != "." {
      if rooted && part == ".." {
        assert Walk(from, stack) == [];
      } else {
        WalkInTwo(from, stack, [part]);
        WalkOne(Walk(from, stack), part);
      }
    }
  }

  lemma TakenIsStacked(rooted: bool, stack: seq<string>, part: string, ups: nat) returns (n: nat)
    requires Stacked(rooted, stack, ups)
    ensures Stacked(rooted, Taken(rooted, stack, part), n)
  {
    n := CleanIsStacked(rooted, stack, [part], ups);
    assert CleanOnto(rooted, stack, [part]) == Taken(rooted, stack, part);
  }

  lemma {:induction false} CleanOntoLeadsThere(
    rooted: bool, from: seq<string>, stack: seq<string>, parts: seq<string>, ups: nat)
    requires Stacked(rooted, stack, ups) && (rooted ==> from == [])
    ensures Walk(from, CleanOnto(rooted, stack, parts)) == Walk(Walk(from, stack), parts)
    decreases |parts|
  {
    if parts != [] {
      TakenLeadsThere(rooted, from, stack, parts[0], ups);
      var n := TakenIsStacked(rooted, stack, parts[0], ups);
      CleanOntoLeadsThere(rooted, from, Taken(rooted, stack, parts[0]), parts[1..], n);
    }
  }

  /** A cleaned path leads where the path does, from anywhere; it has no "." in it, and ".." only at the front of
      one that is relative. */
  lemma CleanLeadsThere(p: Path, from: seq<string>) returns (ups: nat)
    requires p.rooted ==> from == []
    ensures Clean(p).rooted == p.rooted && Walk(from, Clean(p).parts) == Walk(from, p.parts)
    ensures ups <= |Clean(p).parts| && (p.rooted ==> ups == 0) && Plain(Clean(p).parts[ups..])
    ensures forall k :: 0 <= k < ups ==> Clean(p).parts[k] == ".."
  {
    ups := CleanIsStacked(p.rooted, [], p.parts, 0);
    CleanOntoLeadsThere(p.rooted, from, [], p.parts, 0);
  }

  lemma {:induction false} CommonPrefixIsAll(a: seq<string>, b: seq<string>)
    ensures CommonPrefix(a, b) == |a| <==> a <= b
  {
    CommonPrefixFits(a, b);
    assert a[..|a|] == a;
    if a <= b {
      assert b == a + b[|a|..];
      CommonPrefixOfExtension(a, b[|a|..]);
    }
  }

  /** A path is inside a directory exactly when, cleaned, it goes on from the directory's own elements; and it is
      then relative to it as what follows them. */
  lemma WithinMeans(dir: Path, path: Path)
    requires CleanDir(dir) && path.rooted
    ensures Within(dir, path) <==> dir.parts <= Clean(path).parts
    ensures Within(dir, path) ==> Rel(dir, path) == Some(Path(false, Clean(path).parts[|dir.parts|..]))
  {
    PlainIsClean(dir);
    CleanTwice(path);
    var t := Clean(path).parts;
    var ups := CleanIsStacked(true, [], path.parts, 0);
    assert t[0..] == t;
    CommonPrefixFits(dir.parts, t);
    CommonPrefixIsAll(dir.parts, t);
    if dir.parts <= t {
      assert Ups(0) + t[|dir.parts|..] == t[|dir.parts|..];
    }
  }

  // ---- relative paths in general ----

  lemma {:induction false} CommonPrefixEnds(a: seq<string>, b: seq<string>)
    ensures var c := CommonPrefix(a, b); c < |a| && c < |b| ==> a[c] != b[c]
  {
    if a != [] && b != [] && a[0] == b[0] { CommonPrefixEnds(a[1..], b[1..]); }
  }

  lemma {:induction false} PoppedOff(rooted: bool, stack: seq<string>, n: nat)
    requires n <= |stack| && forall k :: |stack| - n <= k < |stack| ==> stack[k] != ".."
    ensures CleanOnto(rooted, stack, Ups(n)) == stack[..|stack| - n]
    decreases n
  {
    if n > 0 {
      assert Ups(n)[1..] == Ups(n - 1);
      var front := stack[..|stack| - 1];
      PoppedOff(rooted, front, n - 1);
      assert front[..|front| - (n - 1)] == stack[..|stack| - n];
    }
  }

  /** The rest of a cleaned path goes back onto its beginning as it is. */
  lemma PushedBack(rooted: bool, t: seq<string>, c: nat, ups: nat)
    requires c <= |t| && Stacked(rooted, t, ups)
    ensures CleanOnto(rooted, t[..c], t[c..]) == t
  {
    if ups <= c {
      CleanPlain(rooted, t[..c], t[c..]);
      assert t[..c] + t[c..] == t;
    } else {
      assert t[c..] == Ups(ups - c) + t[ups..] && t[..c] + Ups(ups - c) == t[..ups];
      CleanInTwo(rooted, t[..c], Ups(ups - c), t[ups..]);
      CleanUps(t[..c], ups - c);
      CleanPlain(rooted, t[..ups], t[ups..]);
      assert t[..ups] + t[ups..] == t;
    }
  }

  /** Where two cleaned paths part, the base still goes up exactly when it goes up further than the target. */
  lemma UpPastTheTarget(rooted: bool, b: seq<string>, t: seq<string>, up: nat, up': nat)
    requires Stacked(rooted, b, up) && Stacked(rooted, t, up')
    ensures var c := CommonPrefix(b, t);
            c <= |b| && c <= |t| && (c < |b| && b[c] == ".." <==> up > up') && (up <= up' ==> up <= c)
  {
    var c := CommonPrefix(b, t);
    CommonPrefixFits(b, t);
    CommonPrefixEnds(b, t);
    assert forall k :: 0 <= k < c ==> b[k] == b[..c][k] == t[..c][k] == t[k];
    assert up < |b| ==> b[up] == b[up..][0];
    assert up' < |t| ==> t[up'] == t[up'..][0];
    if c < |b| {
      assert c >= up ==> b[c] == b[up..][c - up];
    }
    if c < |t| {
      assert c >= up' ==> t[c] == t[up'..][c - up'];
    }
  }

  lemma JoinedBack(rooted: bool, b: seq<string>, t: seq<string>, up: nat, up': nat, c: nat)
    requires Stacked(rooted, b, up) && Stacked(rooted, t, up') && up <= c <= |b| && c <= |t| && b[..c] == t[..c]
    ensures CleanOnto(rooted, b, Ups(|b| - c) + t[c..]) == t
  {
    forall k | c <= k < |b| ensures b[k] != ".." {
      assert b[k] == b[up..][k - up];
    }
    CleanInTwo(rooted, b, Ups(|b| - c), t[c..]);
    PoppedOff(rooted, b, |b| - c);
    assert b[..|b| - (|b| - c)] == t[..c];
    PushedBack(rooted, t, c, up');
  }

  /** Joining the relative path onto the base leads back to the target; there is one exactly when both are rooted,
      or neither is and the base does not go further up than the target does. */
  lemma RelLeadsBack(base: Path, target: Path) returns (up: nat, up': nat)
    ensures Stacked(base.rooted, Clean(base).parts, up) && Stacked(target.rooted, Clean(target).parts, up')
    ensures Rel(base, target).Some? <==> base.rooted == target.rooted && up <= up'
    ensures Rel(base, target).Some? ==>
              !Rel(base, target).value.rooted && Join(Clean(base), Rel(base, target).value) == Clean(target)
  {
    up := CleanIsStacked(base.rooted, [], base.parts, 0);
    up' := CleanIsStacked(target.rooted, [], target.parts, 0);
    if base.rooted == target.rooted {
      var b, t := Clean(base).parts, Clean(target).parts;
      var c := CommonPrefix(b, t);
      UpPastTheTarget(base.rooted, b, t, up, up');
      if up <= up' {
        CommonPrefixFits(b, t);
        JoinedBack(base.rooted, b, t, up, up', c);
        CleanInTwo(base.rooted, [], b, Ups(|b| - c) + t[c..]);
        CleanTwice(base);
      }
    }
  }
}
