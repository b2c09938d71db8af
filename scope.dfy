/** The tables a container owns and the lookup `get` performs over a chain
    of containers (src/container.ts `get`, and the identical `get` of
    src/index.ts). A chain lists the tables of a container first, then those
    of its parent, grandparent and so on. */
module Scope {
  import opened Values

  /** `registry` is the memo cache, `resolving` the in-flight flags,
      `forced` the mock overrides. */
  datatype Tables = Tables(
    registry: map<Value, Value>,
    resolving: map<Value, bool>,
    forced: map<Value, Value>)

  const Empty := Tables(map[], map[], map[])

  /** `resolvingDependencies.get(k)` is truthy. */
  predicate IsResolving(t: Tables, k: Value)
    ensures IsResolving(t, k) <==> Truthy(if k in t.resolving then Bool(t.resolving[k]) else Undefined)
  {
    k in t.resolving && t.resolving[k]
  }

  /** The keys whose in-flight flag is `true`. */
  function Flagged(t: Tables): (f: set<Value>)
    ensures forall k :: k in f <==> IsResolving(t, k)
  {
    set k | k in t.resolving && t.resolving[k]
  }

  /** Sets the in-flight flag of `k` to `true`. */
  function Mark(t: Tables, k: Value): (m: Tables)
    ensures m.registry == t.registry && m.forced == t.forced
    ensures Flagged(m) == Flagged(t) + {k}
  {
    var m := t.(resolving := t.resolving[k := true]);
    assert Flagged(m) == Flagged(t) + {k} by {
      forall x ensures x in Flagged(m) <==> x in Flagged(t) + {k} {
        if x == k { assert m.resolving[x]; } else { assert x in m.resolving <==> x in t.resolving; }
      }
    }
    m
  }

  /** `mock`: the forced value of `k` becomes `v`, whatever it was. */
  function Mock(t: Tables, k: Value, v: Value): (m: Tables)
    ensures Lookup(m.forced, k) == v
    ensures forall x :: x != k ==> Lookup(m.forced, x) == Lookup(t.forced, x)
    ensures m.registry == t.registry && m.resolving == t.resolving
  {
    t.(forced := t.forced[k := v])
  }

  /** The forced value of the parent, the second table `get` consults. */
  function ParentForced(chain: seq<Tables>, k: Value): (r: Value)
    ensures |chain| <= 1 ==> r == Undefined
    ensures |chain| > 1 ==> r == Lookup(chain[1].forced, k)
  {
    if |chain| > 1 then Lookup(chain[1].forced, k) else Undefined
  }

  /** Everything `get` inspects, in the order it inspects it: for each
      container of the chain, its own forced value, its parent's forced value
      and its own registry entry. */
  function Candidates(chain: seq<Tables>, k: Value): (c: seq<Value>)
    ensures |c| == 3 * |chain|
  {
    if chain == [] then []
    else [Lookup(chain[0].forced, k), ParentForced(chain, k), Lookup(chain[0].registry, k)]
         + Candidates(chain[1..], k)
  }

  predicate NoneTruthy(s: seq<Value>) {
    forall i :: 0 <= i < |s| ==> !Truthy(s[i])
  }

  /** The reference definition of lookup: the first truthy value of a list,
      `undefined` when there is none. */
  function FirstTruthy(s: seq<Value>): (r: Value)
    ensures Truthy(r) || r == Undefined
  {
    if s == [] then Undefined else if Truthy(s[0]) then s[0] else FirstTruthy(s[1..])
  }

  /** FirstTruthy is the earliest truthy element, and `undefined` exactly when
      no element is truthy. */
  lemma {:induction false} FirstTruthyIsEarliest(s: seq<Value>, i: int)
    requires 0 <= i < |s| && Truthy(s[i]) && NoneTruthy(s[..i])
    ensures FirstTruthy(s) == s[i]
    decreases i
  {
    if i > 0 {
      assert !Truthy(s[0]) by { assert s[..i][0] == s[0]; }
      assert s[1..][..i - 1] == s[..i][1..];
      FirstTruthyIsEarliest(s[1..], i - 1);
    }
  }

  lemma {:induction false} FirstTruthyOfFalsy(s: seq<Value>)
    requires NoneTruthy(s)
    ensures FirstTruthy(s) == Undefined
    decreases |s|
  {
    if s != [] {
      FirstTruthyOfFalsy(s[1..]);
    }
  }

  lemma {:induction false} FirstTruthyFindsNothing(s: seq<Value>)
    ensures !Truthy(FirstTruthy(s)) <==> NoneTruthy(s)
    decreases |s|
  {
    if s != [] {
      FirstTruthyFindsNothing(s[1..]);
      if !Truthy(s[0]) {
        assert NoneTruthy(s) <==> NoneTruthy(s[1..]) by {
          if NoneTruthy(s[1..]) {
            forall i | 0 <= i < |s| ensures !Truthy(s[i]) {
              if i > 0 { assert s[i] == s[1..][i - 1]; }
            }
          }
        }
      }
    }
  }

  lemma {:induction false} FirstTruthyAppend(a: seq<Value>, b: seq<Value>)
    ensures FirstTruthy(a + b) == if NoneTruthy(a) then FirstTruthy(b) else FirstTruthy(a)
    decreases |a|
  {
    if a == [] {
      assert a + b == b;
    } else {
      assert (a + b)[0] == a[0];
      assert (a + b)[1..] == a[1..] + b;
      FirstTruthyAppend(a[1..], b);
      if !Truthy(a[0]) {
        assert NoneTruthy(a) <==> NoneTruthy(a[1..]) by {
          if NoneTruthy(a[1..]) {
            forall i | 0 <= i < |a| ensures !Truthy(a[i]) {
              if i > 0 { assert a[i] == a[1..][i - 1]; }
            }
          }
        }
      }
    }
  }

  /** `get(k)`: own forced value, else the parent's forced value, else own
      registry entry, else the parent's whole `get`; the first truthy one
      wins and falsy entries fall through. With no container left the lookup
      is `undefined`, so the result is the first truthy candidate of the whole
      chain, or `undefined` when there is none. */
  function Get(chain: seq<Tables>, k: Value): (r: Value)
    ensures r == FirstTruthy(Candidates(chain, k))
    ensures !Truthy(r) ==> r == Undefined
    decreases |chain|
  {
    if chain == [] then Undefined
    else
      var r := Or(Lookup(chain[0].forced, k),
                  Or(ParentForced(chain, k),
                     Or(Lookup(chain[0].registry, k), Get(chain[1..], k))));
      ghost var head := [Lookup(chain[0].forced, k), ParentForced(chain, k), Lookup(chain[0].registry, k)];
      assert r == FirstTruthy(Candidates(chain, k)) by {
        FirstTruthyAppend(head, Candidates(chain[1..], k));
        assert head[1..] == [head[1], head[2]];
        assert head[1..][1..] == [head[2]];
        assert [head[2]][1..] == [];
        assert FirstTruthy([head[2]]) == Or(head[2], Undefined);
        assert FirstTruthy(head[1..]) == Or(head[1], FirstTruthy([head[2]]));
        assert FirstTruthy(head) == Or(head[0], FirstTruthy(head[1..]));
        assert NoneTruthy(head) <==> !Truthy(head[0]) && !Truthy(head[1]) && !Truthy(head[2]);
      }
      r
  }

  /** A container with no parent consults its forced value, then its
      registry entry, and finds `undefined` when neither is truthy. */
  lemma GetWithoutParent(t: Tables, k: Value)
    ensures Get([t], k) == Or(Lookup(t.forced, k), Or(Lookup(t.registry, k), Undefined))
  {
    assert [t][1..] == [] && ParentForced([t], k) == Undefined;
    assert Get([], k) == Undefined;
  }

  /** Where the forced value of `chain[j]` first appears among the
      candidates: as its own forced value when j is 0, otherwise as the parent
      forced value of `chain[j - 1]`. */
  function MockPosition(j: nat): nat {
    if j == 0 then 0 else 3 * j - 2
  }

  lemma {:induction false} CandidatesBeforeMock(chain: seq<Tables>, j: nat, k: Value, v: Value)
    requires j < |chain|
    ensures var mocked := chain[j := Mock(chain[j], k, v)];
      && Candidates(mocked, k)[..MockPosition(j)] == Candidates(chain, k)[..MockPosition(j)]
      && Candidates(mocked, k)[MockPosition(j)] == v
    decreases j, 1
  {
    var mocked := chain[j := Mock(chain[j], k, v)];
    if j == 1 {
      assert Candidates(mocked, k)[..1] == [Lookup(mocked[0].forced, k)];
      assert Candidates(chain, k)[..1] == [Lookup(chain[0].forced, k)];
    } else if j > 1 {
      CandidatesBeforeDeepMock(chain, j, k, v);
    }
  }

  /** The step of CandidatesBeforeMock for a mock two or more levels up: the
      first container's three candidates are untouched and come first. */
  lemma {:induction false} CandidatesBeforeDeepMock(chain: seq<Tables>, j: nat, k: Value, v: Value)
    requires 2 <= j < |chain|
    ensures var mocked := chain[j := Mock(chain[j], k, v)];
      && Candidates(mocked, k)[..MockPosition(j)] == Candidates(chain, k)[..MockPosition(j)]
      && Candidates(mocked, k)[MockPosition(j)] == v
    decreases j, 0
  {
    var mocked := chain[j := Mock(chain[j], k, v)];
    var rest, mrest := chain[1..], mocked[1..];
    assert mrest == rest[j - 1 := Mock(chain[j], k, v)];
    CandidatesBeforeMock(rest, j - 1, k, v);
    var p := MockPosition(j - 1);
    var head := [Lookup(chain[0].forced, k), ParentForced(chain, k), Lookup(chain[0].registry, k)];
    var c, mc := Candidates(rest, k), Candidates(mrest, k);
    assert Candidates(mocked, k) == head + mc by {
      assert mocked[0] == chain[0] && mocked[1] == chain[1];
    }
    assert Candidates(chain, k) == head + c;
    ConcatPrefix(head, mc, p);
    ConcatPrefix(head, c, p);
  }

  lemma ConcatPrefix(a: seq<Value>, b: seq<Value>, p: nat)
    requires p < |b|
    ensures (a + b)[..|a| + p] == a + b[..p] && (a + b)[|a| + p] == b[p]
  {
    assert (a + b)[..|a| + p] == a + b[..p];
  }

  /** Mocking `k` with a truthy `v` in the container at depth `j` of a chain
      (0 is the container that looks up) makes lookup yield `v` exactly when
      no candidate it consults earlier is truthy; otherwise the earlier
      truthy value wins. Depth 0 always sees the mock, and a direct child
      sees it unless it has a truthy mock of its own, even when its registry
      already holds `k`. */
  lemma MockVisibility(chain: seq<Tables>, j: nat, k: Value, v: Value)
    requires j < |chain| && Truthy(v)
    ensures var before := Candidates(chain, k)[..MockPosition(j)];
      Get(chain[j := Mock(chain[j], k, v)], k) == if NoneTruthy(before) then v else FirstTruthy(before)
  {
    var mocked := chain[j := Mock(chain[j], k, v)];
    var p := MockPosition(j);
    CandidatesBeforeMock(chain, j, k, v);
    var c := Candidates(mocked, k);
    assert c == c[..p] + c[p..];
    FirstTruthyAppend(c[..p], c[p..]);
    assert FirstTruthy(c[p..]) == v;
  }

  /** The lookup is not re-run at every ancestor: a grandchild whose own
      registry holds a truthy value for `k` returns that value even though
      its grandparent mocks `k`. */
  lemma GrandchildRegistryShadowsMock(chain: seq<Tables>, k: Value)
    requires |chain| == 3
    requires !Truthy(Lookup(chain[0].forced, k)) && !Truthy(Lookup(chain[1].forced, k))
    requires Truthy(Lookup(chain[0].registry, k)) && Truthy(Lookup(chain[2].forced, k))
    ensures Get(chain, k) == Lookup(chain[0].registry, k)
  {
  }

  /** Only the forced and registry tables matter to lookup: changing the
      in-flight flags of the container never changes what it sees. */
  lemma GetIgnoresFlags(t: Tables, u: Tables, outer: seq<Tables>, k: Value)
    requires t.registry == u.registry && t.forced == u.forced
    ensures Get([t] + outer, k) == Get([u] + outer, k)
  {
    assert ([t] + outer)[1..] == outer == ([u] + outer)[1..];
  }
}
