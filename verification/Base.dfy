/** Small shared vocabulary: optional values and two facts about the sizes of finite sets. */
module Base {

  datatype Option<+T> = None | Some(value: T) {
    function GetOr(default: T): T {
      if Some? then value else default
    }
  }

  /** A goroutine. */
  type Tid = nat

  /** An AMQP channel: the connection it was opened on and its number among that connection's pooled channels. */
  datatype Ch = Ch(conn: nat, serial: nat)

  /** A finite map that never sends two keys to one value has no more keys than the set its values lie in. */
  lemma {:induction false} InjectionBoundsSize<K, V>(f: map<K, V>, target: set<V>)
    requires forall k :: k in f ==> f[k] in target
    requires forall k, j :: k in f && j in f && f[k] == f[j] ==> k == j
    ensures |f| <= |target|
    decreases |f|
  {
    if f.Keys != {} {
      var k :| k in f;
      var g := f - {k};
      assert g.Keys == f.Keys - {k};
      InjectionBoundsSize(g, target - {f[k]});
    }
  }

  lemma SubsetSize<T>(small: set<T>, large: set<T>)
    requires small <= large
    ensures |small| <= |large|
  {
    assert large == small + (large - small);
  }

  /** A sequence without repetitions is as long as its set of elements is large. */
  lemma {:induction false} DistinctSize<T>(q: seq<T>)
    requires forall i, j :: 0 <= i < j < |q| ==> q[i] != q[j]
    ensures |set x | x in q| == |q|
  {
    if q != [] {
      var rest := q[..|q| - 1];
      var last := q[|q| - 1];
      DistinctSize(rest);
      assert (set x | x in q) == (set x | x in rest) + {last};
    }
  }

  /** The keys whose value passes a test, and how many there are. */
  function Who<V>(m: map<Tid, V>, test: V -> bool): set<Tid> {
    set t | t in m && test(m[t])
  }

  function Count<V>(m: map<Tid, V>, test: V -> bool): nat {
    |Who(m, test)|
  }

  /** The contribution of one key to the count. */
  function Part<V>(m: map<Tid, V>, t: Tid, test: V -> bool): nat {
    if t in m && test(m[t]) then 1 else 0
  }

  ghost predicate SameBut<V>(a: map<Tid, V>, b: map<Tid, V>, t: Tid) {
    && (forall k :: k != t ==> (k in a <==> k in b))
    && (forall k :: k in a && k in b && k != t ==> a[k] == b[k])
  }

  /** A change at one key changes every count by that key's own contribution. */
  lemma CountMove<V>(a: map<Tid, V>, b: map<Tid, V>, t: Tid, test: V -> bool)
    requires SameBut(a, b, t)
    ensures Count(b, test) == Count(a, test) - Part(a, t, test) + Part(b, t, test)
  {
    SameElsewhere(a, b, t, test);
    SizeWithout(Who(a, test), t);
    SizeWithout(Who(b, test), t);
  }

  lemma SameElsewhere<V>(a: map<Tid, V>, b: map<Tid, V>, t: Tid, test: V -> bool)
    requires SameBut(a, b, t)
    ensures Who(a, test) - {t} == Who(b, test) - {t}
  {
    forall k | k != t ensures k in Who(a, test) <==> k in Who(b, test) {
      assert k in a <==> k in b;
    }
  }

  lemma SizeWithout(s: set<Tid>, t: Tid)
    ensures |s| == |s - {t}| + if t in s then 1 else 0
  {
    assert s == if t in s then (s - {t}) + {t} else s - {t};
  }

  lemma PartBound<V>(m: map<Tid, V>, t: Tid, test: V -> bool)
    ensures Part(m, t, test) <= Count(m, test)
  {
    if t in Who(m, test) {
      assert Who(m, test) == (Who(m, test) - {t}) + {t};
    }
  }
}
