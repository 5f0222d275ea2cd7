/** The laser pass of a frame, as a specification: lasers are taken from the
    last to the first; each one moves and ages by one frame, is dropped when
    its life is used up or it has left the field, and otherwise destroys the
    asteroid LastHit picks, which is replaced by a freshly spawned one. */
module LaserPass {
  import opened Entities
  import opened Collision
  import opened Spawning

  /** s with the element at index j taken out (a one-element splice). */
  function Splice<T>(s: seq<T>, j: nat): (r: seq<T>)
    requires j < |s|
    ensures |r| == |s| - 1
    ensures forall k :: 0 <= k < j ==> r[k] == s[k]
    ensures forall k :: j <= k < |r| ==> r[k] == s[k + 1]
  {
    s[..j] + s[j + 1..]
  }

  /** A laser one frame later: moved along its heading, one frame older. */
  function Advance(l: Laser, trig: Trig): (r: Laser)
    ensures r.x == l.x + trig.dx(l.speed, l.angle) && r.y == l.y + trig.dy(l.speed, l.angle)
    ensures r.life == l.life - 1 && r.angle == l.angle && r.speed == l.speed
  {
    l.(x := l.x + trig.dx(l.speed, l.angle),
       y := l.y + trig.dy(l.speed, l.angle),
       life := l.life - 1)
  }

  /** A laser is removed when it is off the field (no margin) or its life
      is used up. */
  predicate Culled(l: Laser, width: real, height: real)
  {
    l.x < 0.0 || l.x > width || l.y < 0.0 || l.y > height || l.life <= 0
  }

  /** State of the pass: the lasers kept so far, the asteroids, and the
      number of hits scored so far. */
  datatype PassState = PassState(lasers: seq<Laser>, asteroids: seq<Asteroid>, hits: nat)

  /** One turn of the outer loop, for a laser l that has already moved and
      aged: a culled laser changes nothing; a laser that hits nothing is kept
      in front of the lasers kept so far; a laser that hits is dropped along
      with the asteroid LastHit picks, the hits go up by one and a new
      asteroid, drawn from env.rng(hits), is pushed. */
  function Visit(l: Laser, st: PassState, env: Env): (r: PassState)
    ensures |r.asteroids| == |st.asteroids|
    ensures Culled(l, env.width, env.height) ==> r == st
    ensures !Culled(l, env.width, env.height) && r.hits == st.hits ==>
              r.lasers == [l] + st.lasers && r.asteroids == st.asteroids &&
              LastHit(l, st.asteroids) == None
    ensures r.hits != st.hits ==>
              r.hits == st.hits + 1 && r.lasers == st.lasers &&
              !Culled(l, env.width, env.height) && LastHit(l, st.asteroids).Some?
  {
    if Culled(l, env.width, env.height) then st
    else
      match LastHit(l, st.asteroids)
      case None => st.(lasers := [l] + st.lasers)
      case Some(j) =>
        var spawned := Spawn(env.rng(st.hits), env.width, env.height);
        PassState(st.lasers, Splice(st.asteroids, j) + [spawned], st.hits + 1)
  }

  /** When a visit scores, the asteroid removed is the one LastHit picks
      (the hit asteroid with the highest index): the asteroids below it stay
      in place, those above it move down by one, and the asteroid spawned
      from draw number st.hits is added at the end. */
  lemma VisitRemovesLastHit(l: Laser, st: PassState, env: Env)
    ensures var r := Visit(l, st, env);
            r.hits != st.hits ==>
              LastHit(l, st.asteroids).Some? &&
              var j := LastHit(l, st.asteroids).value;
              (forall k :: 0 <= k < j ==> r.asteroids[k] == st.asteroids[k]) &&
              (forall k :: j <= k < |st.asteroids| - 1 ==> r.asteroids[k] == st.asteroids[k + 1]) &&
              r.asteroids[|r.asteroids| - 1] == Spawn(env.rng(st.hits), env.width, env.height)
  {
  }

  /** The laser pass over the lasers still to visit (pending), from the last
      to the first, starting from state st. */
  function Pass(pending: seq<Laser>, st: PassState, env: Env): PassState
    decreases |pending|
  {
    if pending == [] then st
    else
      var i := |pending| - 1;
      Pass(pending[..i], Visit(Advance(pending[i], env.trig), st, env), env)
  }

  /** Number of lasers that the pass drops as expired or off the field. */
  function CulledCount(lasers: seq<Laser>, env: Env): nat
  {
    if lasers == [] then 0
    else
      var i := |lasers| - 1;
      CulledCount(lasers[..i], env) +
      if Culled(Advance(lasers[i], env.trig), env.width, env.height) then 1 else 0
  }

  /** The lasers that outlive culling, advanced one frame, in their order:
      what the pass keeps when nothing is hit. */
  function Survivors(lasers: seq<Laser>, env: Env): (r: seq<Laser>)
    ensures |r| + CulledCount(lasers, env) == |lasers|
    ensures forall m :: 0 <= m < |r| ==> !Culled(r[m], env.width, env.height)
  {
    if lasers == [] then []
    else
      var i := |lasers| - 1;
      var l := Advance(lasers[i], env.trig);
      Survivors(lasers[..i], env) + if Culled(l, env.width, env.height) then [] else [l]
  }

  /** Each survivor is one of the given lasers advanced by one frame: moved
      along its heading and with its life cut by exactly one. */
  lemma {:induction false} SurvivorsAreAdvanced(lasers: seq<Laser>, env: Env)
    ensures forall m :: 0 <= m < |Survivors(lasers, env)| ==>
              exists k :: 0 <= k < |lasers| && Survivors(lasers, env)[m] == Advance(lasers[k], env.trig)
    decreases |lasers|
  {
    if lasers != [] {
      var i := |lasers| - 1;
      var front := lasers[..i];
      SurvivorsAreAdvanced(front, env);
      var r := Survivors(lasers, env);
      var rest := Survivors(front, env);
      forall m | 0 <= m < |Survivors(lasers, env)|
        ensures exists k :: 0 <= k < |lasers| && Survivors(lasers, env)[m] == Advance(lasers[k], env.trig)
      {
        if m < |rest| {
          assert exists k :: 0 <= k < |front| && rest[m] == Advance(front[k], env.trig);
          var k :| 0 <= k < |front| && rest[m] == Advance(front[k], env.trig);
          assert r[m] == rest[m] && front[k] == lasers[k];
        } else {
          assert r[m] == Advance(lasers[i], env.trig);
        }
      }
    } else {
      assert Survivors(lasers, env) == [];
    }
  }

  /** a is obtained from b by deleting elements, keeping the order. */
  ghost predicate Subseq<T>(a: seq<T>, b: seq<T>)
    decreases |b|
  {
    if b == [] then a == []
    else
      Subseq(a, b[..|b| - 1]) ||
      (a != [] && a[|a| - 1] == b[|b| - 1] && Subseq(a[..|a| - 1], b[..|b| - 1]))
  }

  lemma {:induction false} SubseqMembers<T>(a: seq<T>, b: seq<T>)
    requires Subseq(a, b)
    ensures forall x :: x in a ==> x in b
    decreases |b|
  {
    if b != [] {
      var b' := b[..|b| - 1];
      if Subseq(a, b') {
        SubseqMembers(a, b');
      } else {
        var a' := a[..|a| - 1];
        SubseqMembers(a', b');
        assert a == a' + [a[|a| - 1]];
        assert b == b' + [b[|b| - 1]];
      }
    }
  }

  /** The pass never changes how many asteroids there are: every hit takes
      one out and spawns one. */
  lemma {:induction false} PassKeepsPopulation(pending: seq<Laser>, st: PassState, env: Env)
    ensures |Pass(pending, st, env).asteroids| == |st.asteroids|
    decreases |pending|
  {
    if pending != [] {
      var i := |pending| - 1;
      PassKeepsPopulation(pending[..i], Visit(Advance(pending[i], env.trig), st, env), env);
    }
  }

  /** The pass only adds lasers in front of the ones kept before it and
      never takes hits back. */
  lemma {:induction false} PassKeepsEarlier(pending: seq<Laser>, st: PassState, env: Env)
    ensures var r := Pass(pending, st, env);
            st.hits <= r.hits && |st.lasers| <= |r.lasers| &&
            r.lasers[|r.lasers| - |st.lasers|..] == st.lasers
    decreases |pending|
  {
    if pending != [] {
      var i := |pending| - 1;
      var v := Visit(Advance(pending[i], env.trig), st, env);
      PassKeepsEarlier(pending[..i], v, env);
      var r := Pass(pending, st, env);
      if |v.lasers| != |st.lasers| {
        assert r.lasers[|r.lasers| - |st.lasers|..] == v.lasers[1..];
      }
    }
  }

  /** Every pending laser is visited exactly once and ends in exactly one of
      three ways: culled, kept, or removed together with the one asteroid it
      destroyed. The lasers kept by the pass are, in order, some of the
      Survivors; the Survivors left out are exactly as many as the hits. */
  lemma {:induction false} PassOutcome(pending: seq<Laser>, st: PassState, env: Env)
    ensures var r := Pass(pending, st, env);
            st.hits <= r.hits && |st.lasers| <= |r.lasers| &&
            Subseq(r.lasers[..|r.lasers| - |st.lasers|], Survivors(pending, env)) &&
            |Survivors(pending, env)| == |r.lasers| - |st.lasers| + (r.hits - st.hits)
    decreases |pending|, 1
  {
    PassKeepsEarlier(pending, st, env);
    if pending == [] {
      var r := Pass(pending, st, env);
      assert r.lasers[..|r.lasers| - |st.lasers|] == [];
    } else {
      var i := |pending| - 1;
      var l := Advance(pending[i], env.trig);
      if Culled(l, env.width, env.height) {
        assert Pass(pending, st, env) == Pass(pending[..i], st, env);
        assert Survivors(pending, env) == Survivors(pending[..i], env);
        PassOutcome(pending[..i], st, env);
      } else if Visit(l, st, env).hits == st.hits {
        PassOutcomeKept(pending, st, env);
      } else {
        PassOutcomeHit(pending, st, env);
      }
    }
  }

  /** PassOutcome when the last pending laser is kept. */
  lemma {:induction false} PassOutcomeKept(pending: seq<Laser>, st: PassState, env: Env)
    requires pending != []
    requires var l := Advance(pending[|pending| - 1], env.trig);
             !Culled(l, env.width, env.height) && Visit(l, st, env).hits == st.hits
    ensures var r := Pass(pending, st, env);
            |st.lasers| <= |r.lasers| &&
            Subseq(r.lasers[..|r.lasers| - |st.lasers|], Survivors(pending, env)) &&
            |Survivors(pending, env)| == |r.lasers| - |st.lasers| + (r.hits - st.hits)
    decreases |pending|, 0
  {
    var i := |pending| - 1;
    var l := Advance(pending[i], env.trig);
    var v := Visit(l, st, env);
    var rest := Survivors(pending[..i], env);
    assert Pass(pending, st, env) == Pass(pending[..i], v, env);
    assert Survivors(pending, env) == rest + [l];
    PassOutcome(pending[..i], v, env);
    PassKeepsEarlier(pending[..i], v, env);
    KeptStep(Pass(pending[..i], v, env), st, l, rest);
  }

  /** PassOutcome when the last pending laser destroys an asteroid. */
  lemma {:induction false} PassOutcomeHit(pending: seq<Laser>, st: PassState, env: Env)
    requires pending != []
    requires var l := Advance(pending[|pending| - 1], env.trig);
             Visit(l, st, env).hits != st.hits
    ensures var r := Pass(pending, st, env);
            st.hits < r.hits && |st.lasers| <= |r.lasers| &&
            Subseq(r.lasers[..|r.lasers| - |st.lasers|], Survivors(pending, env)) &&
            |Survivors(pending, env)| == |r.lasers| - |st.lasers| + (r.hits - st.hits)
    decreases |pending|, 0
  {
    var i := |pending| - 1;
    var l := Advance(pending[i], env.trig);
    var v := Visit(l, st, env);
    var rest := Survivors(pending[..i], env);
    assert Pass(pending, st, env) == Pass(pending[..i], v, env);
    assert Survivors(pending, env) == rest + [l];
    PassOutcome(pending[..i], v, env);
    HitStep(Pass(pending[..i], v, env), v, st, l, rest);
  }

  /** Step of PassOutcome for a laser l that is kept: it joins the front of
      the kept lasers and the back of the Survivors, and scores nothing. */
  lemma KeptStep(r: PassState, st: PassState, l: Laser, rest: seq<Laser>)
    requires |st.lasers| + 1 <= |r.lasers|
    requires r.lasers[|r.lasers| - |st.lasers| - 1..] == [l] + st.lasers
    requires Subseq(r.lasers[..|r.lasers| - |st.lasers| - 1], rest)
    requires |rest| == |r.lasers| - |st.lasers| - 1 + (r.hits - st.hits)
    ensures Subseq(r.lasers[..|r.lasers| - |st.lasers|], rest + [l])
    ensures |rest + [l]| == |r.lasers| - |st.lasers| + (r.hits - st.hits)
  {
    var kept := r.lasers[..|r.lasers| - |st.lasers| - 1];
    assert r.lasers[..|r.lasers| - |st.lasers|] == kept + [l];
    assert (kept + [l])[..|kept|] == kept;
    assert (rest + [l])[..|rest|] == rest;
  }

  /** Step of PassOutcome for a laser l that scores: the kept lasers are
      unchanged, one more Survivor is left out, and hits go up by one. */
  lemma HitStep(r: PassState, v: PassState, st: PassState, l: Laser, rest: seq<Laser>)
    requires v.lasers == st.lasers && v.hits == st.hits + 1
    requires v.hits <= r.hits && |v.lasers| <= |r.lasers|
    requires Subseq(r.lasers[..|r.lasers| - |v.lasers|], rest)
    requires |rest| == |r.lasers| - |v.lasers| + (r.hits - v.hits)
    ensures Subseq(r.lasers[..|r.lasers| - |st.lasers|], rest + [l])
    ensures |rest + [l]| == |r.lasers| - |st.lasers| + (r.hits - st.hits)
  {
  }

  /** When the pass scores nothing it is exactly the culling filter: the
      Survivors go in front of the lasers kept before, and the asteroids are
      untouched. */
  lemma {:induction false} PassWithoutHits(pending: seq<Laser>, st: PassState, env: Env)
    ensures var r := Pass(pending, st, env);
            r.hits == st.hits ==>
              r.lasers == Survivors(pending, env) + st.lasers && r.asteroids == st.asteroids
    decreases |pending|, 1
  {
    if pending != [] {
      var i := |pending| - 1;
      var l := Advance(pending[i], env.trig);
      var v := Visit(l, st, env);
      var r := Pass(pending, st, env);
      var rest := Survivors(pending[..i], env);
      assert r == Pass(pending[..i], v, env);
      if v.hits != st.hits {
        PassKeepsEarlier(pending[..i], v, env);
      } else if Culled(l, env.width, env.height) {
        PassWithoutHits(pending[..i], v, env);
        assert Survivors(pending, env) == rest;
      } else {
        PassWithoutHitsKept(pending, st, env);
      }
    }
  }

  /** PassWithoutHits when the last pending laser is kept. */
  lemma {:induction false} PassWithoutHitsKept(pending: seq<Laser>, st: PassState, env: Env)
    requires pending != []
    requires var l := Advance(pending[|pending| - 1], env.trig);
             !Culled(l, env.width, env.height) && Visit(l, st, env).hits == st.hits
    ensures var r := Pass(pending, st, env);
            r.hits == st.hits ==>
              r.lasers == Survivors(pending, env) + st.lasers && r.asteroids == st.asteroids
    decreases |pending|, 0
  {
    var i := |pending| - 1;
    var l := Advance(pending[i], env.trig);
    var v := Visit(l, st, env);
    var rest := Survivors(pending[..i], env);
    assert Pass(pending, st, env) == Pass(pending[..i], v, env);
    PassWithoutHits(pending[..i], v, env);
    assert Survivors(pending, env) == rest + [l];
    assert rest + [l] + st.lasers == rest + ([l] + st.lasers);
  }

  /** The pass keeps every laser and asteroid well formed: kept lasers have
      between 1 and LaserLife frames left, asteroids keep their size range,
      speed and place on the widened field. */
  lemma {:induction false} PassKeepsWellFormed(pending: seq<Laser>, st: PassState, env: Env)
    requires ValidEnv(env)
    requires AllLasersOk(pending) && AllLasersOk(st.lasers)
    requires AllAsteroidsOk(st.asteroids, env.width, env.height)
    ensures var r := Pass(pending, st, env);
            AllLasersOk(r.lasers) && AllAsteroidsOk(r.asteroids, env.width, env.height)
    decreases |pending|
  {
    if pending != [] {
      var i := |pending| - 1;
      var l := Advance(pending[i], env.trig);
      var v := Visit(l, st, env);
      assert AllLasersOk(pending[..i]);
      assert AllLasersOk(v.lasers) && AllAsteroidsOk(v.asteroids, env.width, env.height) by {
        if !Culled(l, env.width, env.height) && v.hits == st.hits {
          assert LaserOk(l);
        }
      }
      PassKeepsWellFormed(pending[..i], v, env);
    }
  }

  /** Every laser the pass keeps (in front of the ones kept before) is still
      alive and lies within [0, width] x [0, height]. */
  lemma KeptLasersInField(pending: seq<Laser>, st: PassState, env: Env)
    ensures var r := Pass(pending, st, env);
            |st.lasers| <= |r.lasers| &&
            forall m :: 0 <= m < |r.lasers| - |st.lasers| ==>
              0 < r.lasers[m].life &&
              0.0 <= r.lasers[m].x <= env.width && 0.0 <= r.lasers[m].y <= env.height
  {
    var r := Pass(pending, st, env);
    PassOutcome(pending, st, env);
    var kept := r.lasers[..|r.lasers| - |st.lasers|];
    var all := Survivors(pending, env);
    SubseqMembers(kept, all);
    forall m | 0 <= m < |r.lasers| - |st.lasers|
      ensures !Culled(r.lasers[m], env.width, env.height)
    {
      assert r.lasers[m] == kept[m];
      assert kept[m] in all;
    }
  }

  /** Every laser the pass keeps (in front of the ones kept before) is one
      of the pending lasers advanced by one frame, so its life was cut by
      exactly one. */
  lemma KeptLasersAdvanced(pending: seq<Laser>, st: PassState, env: Env)
    ensures var r := Pass(pending, st, env);
            |st.lasers| <= |r.lasers| &&
            forall m :: 0 <= m < |r.lasers| - |st.lasers| ==>
              exists k :: 0 <= k < |pending| && r.lasers[m] == Advance(pending[k], env.trig)
  {
    var r := Pass(pending, st, env);
    PassOutcome(pending, st, env);
    var kept := r.lasers[..|r.lasers| - |st.lasers|];
    var all := Survivors(pending, env);
    SubseqMembers(kept, all);
    SurvivorsAreAdvanced(pending, env);
    forall m | 0 <= m < |r.lasers| - |st.lasers|
      ensures exists k :: 0 <= k < |pending| && r.lasers[m] == Advance(pending[k], env.trig)
    {
      assert r.lasers[m] == kept[m];
      assert kept[m] in all;
      var n :| 0 <= n < |all| && all[n] == kept[m];
    }
  }
}
