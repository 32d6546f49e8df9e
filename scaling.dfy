/** Initial pore-model scalings: for every model that can serve a strand, the
    scale and shift that map the model's level distribution onto the strand's
    event means, either per strand or for a template/complement pair at once. */
module Scaling {
  import opened Islands
  import opened Strands

  /** A pore model as the summary uses it: the strand it serves (0 template,
      1 complement, 2 either) and the mean and standard deviation of its levels. */
  datatype PoreModel = PoreModel(strand: nat, mean: real, stdv: real)

  datatype ScaleParams = ScaleParams(scale: real, shift: real)

  /** Mean and standard deviation of the event means of one strand. */
  datatype Stats = Stats(mean: real, stdv: real)

  /** (template model name, complement model name); a strand a key does not
      concern has the empty name. */
  type ModelKey = (string, string)

  predicate Serves(p: PoreModel, st: nat)
  {
    p.strand == st || p.strand == 2
  }

  /** Every model has a non-zero spread, so the scale quotients are defined. */
  predicate Usable(models: map<string, PoreModel>)
  {
    forall name :: name in models ==> models[name].stdv != 0.0
  }

  /** Per-strand scaling of model p to a strand with statistics r. */
  function Independent(r: Stats, p: PoreModel): ScaleParams
    requires p.stdv != 0.0
  {
    var scale := r.stdv / p.stdv;
    ScaleParams(scale, r.mean - scale * p.mean)
  }

  /** The per-strand scaled model has the strand's spread, and its scaled and
      shifted mean is the strand's mean. */
  lemma IndependentFits(r: Stats, p: PoreModel)
    requires p.stdv != 0.0
    ensures Independent(r, p).scale * p.stdv == r.stdv
    ensures Independent(r, p).shift + Independent(r, p).scale * p.mean == r.mean
  {
  }

  /** Joint scaling of a template model p0 and a complement model p1 to
      strands with statistics r0 and r1. */
  function Joint(r0: Stats, r1: Stats, p0: PoreModel, p1: PoreModel): ScaleParams
    requires p0.stdv != 0.0 && p1.stdv != 0.0
  {
    var scale := (r0.stdv / p0.stdv + r1.stdv / p1.stdv) / 2.0;
    ScaleParams(scale, (r0.mean - scale * p0.mean + r1.mean - scale * p1.mean) / 2.0)
  }

  /** The joint scale is the average of the two per-strand scales, and the
      joint shift makes the two strands' mean residuals cancel. */
  lemma JointBalances(r0: Stats, r1: Stats, p0: PoreModel, p1: PoreModel)
    requires p0.stdv != 0.0 && p1.stdv != 0.0
    ensures 2.0 * Joint(r0, r1, p0, p1).scale == Independent(r0, p0).scale + Independent(r1, p1).scale
    ensures (r0.mean - (Joint(r0, r1, p0, p1).shift + Joint(r0, r1, p0, p1).scale * p0.mean))
          + (r1.mean - (Joint(r0, r1, p0, p1).shift + Joint(r0, r1, p0, p1).scale * p1.mean)) == 0.0
  {
  }

  /** When both strands call for the same per-strand parameters, the joint
      parameters are those. */
  lemma JointOfAgreeingStrands(r0: Stats, r1: Stats, p0: PoreModel, p1: PoreModel)
    requires p0.stdv != 0.0 && p1.stdv != 0.0
    requires Independent(r0, p0) == Independent(r1, p1)
    ensures Joint(r0, r1, p0, p1) == Independent(r0, p0)
  {
    var q := Joint(r0, r1, p0, p1);
    var i0 := Independent(r0, p0);
    JointBalances(r0, r1, p0, p1);
    IndependentFits(r0, p0);
    IndependentFits(r1, p1);
    assert q.scale == i0.scale;
    assert r0.mean - q.scale * p0.mean == i0.shift;
    assert r1.mean - q.scale * p1.mean == i0.shift;
  }

  /** Strands with means 80 and 100 and spread 10, one model with mean 0 and
      spread 1 for both: scale 10, shift 90 (the average of 80 and 100). */
  lemma JointExample()
    ensures Joint(Stats(80.0, 10.0), Stats(100.0, 10.0), PoreModel(2, 0.0, 1.0), PoreModel(2, 0.0, 1.0))
         == ScaleParams(10.0, 90.0)
  {
  }

  /** The key of a per-strand scaling: the model name in the slot of strand st. */
  function Key(st: nat, name: string): (k: ModelKey)
    requires st < 2
  {
    if st == 0 then (name, "") else ("", name)
  }

  lemma KeyInjective(st: nat, a: string, b: string)
    requires st < 2
    ensures Key(st, a) == Key(st, b) <==> a == b
  {
  }

  /** Different strands give different keys, unless both names are empty. */
  lemma KeysOfStrandsDiffer(a: string, b: string)
    requires a != "" || b != ""
    ensures Key(0, a) != Key(1, b)
  {
  }

  /** The per-strand scalings of strand st for the models among `names`. */
  function IndependentOver(r: Stats, st: nat, models: map<string, PoreModel>, names: set<string>): map<ModelKey, ScaleParams>
    requires st < 2 && Usable(models)
  {
    map name | name in names && name in models && Serves(models[name], st) :: Key(st, name) := Independent(r, models[name])
  }

  /** All per-strand scalings of strand st. */
  function IndependentCandidates(r: Stats, st: nat, models: map<string, PoreModel>): map<ModelKey, ScaleParams>
    requires st < 2 && Usable(models)
  {
    IndependentOver(r, st, models, models.Keys)
  }

  /** Key k names a template model among `names` and a complement model, each
      serving its strand. */
  predicate IsJointKey(models: map<string, PoreModel>, names: set<string>, k: ModelKey)
  {
    k.0 in names && k.0 in models && k.1 in models && Serves(models[k.0], 0) && Serves(models[k.1], 1)
  }

  /** pm' is pm with the joint scaling stored under every joint key whose
      template model is among `names`, and no other change. */
  ghost predicate JointAdded(pm': map<ModelKey, ScaleParams>, pm: map<ModelKey, ScaleParams>,
                       r0: Stats, r1: Stats, models: map<string, PoreModel>, names: set<string>)
    requires Usable(models)
  {
    && (forall k :: k in pm' <==> k in pm || IsJointKey(models, names, k))
    && (forall k :: k in pm' && IsJointKey(models, names, k) ==> pm'[k] == Joint(r0, r1, models[k.0], models[k.1]))
    && (forall k :: k in pm' && !IsJointKey(models, names, k) ==> pm'[k] == pm[k])
  }

  /** keys' is keys with every joint key whose template model is among `names`. */
  ghost predicate JointKeysAdded(keys': set<ModelKey>, keys: set<ModelKey>, models: map<string, PoreModel>, names: set<string>)
  {
    forall k :: k in keys' <==> k in keys || IsJointKey(models, names, k)
  }

  /** Exactly the models serving strand st get a per-strand scaling, and each
      fits the model onto the strand's statistics. */
  lemma IndependentCandidatesExact(r: Stats, st: nat, models: map<string, PoreModel>)
    requires st < 2 && Usable(models)
    ensures forall name :: name in models ==>
      (Key(st, name) in IndependentCandidates(r, st, models) <==> Serves(models[name], st))
    ensures forall name :: name in models && Serves(models[name], st) ==>
      IndependentCandidates(r, st, models)[Key(st, name)].scale * models[name].stdv == r.stdv &&
      IndependentCandidates(r, st, models)[Key(st, name)].shift + IndependentCandidates(r, st, models)[Key(st, name)].scale * models[name].mean == r.mean
  {
    var c := IndependentCandidates(r, st, models);
    forall name | name in models && Key(st, name) in c ensures Serves(models[name], st) {
      var other :| other in models.Keys && other in models && Serves(models[other], st) && Key(st, other) == Key(st, name);
      KeyInjective(st, other, name);
    }
    forall name | name in models && Serves(models[name], st)
      ensures c[Key(st, name)] == Independent(r, models[name])
    {
      assert Key(st, name) in c;
      var other :| other in models.Keys && other in models && Serves(models[other], st) && Key(st, other) == Key(st, name)
        && c[Key(st, name)] == Independent(r, models[other]);
      KeyInjective(st, other, name);
    }
  }

  /** Overriding one key after a union is the union with that key overridden. */
  lemma UpdateOfUnion(a: map<ModelKey, ScaleParams>, b: map<ModelKey, ScaleParams>, k: ModelKey, v: ScaleParams)
    ensures (a + b)[k := v] == a + b[k := v]
  {
  }

  lemma IndependentStep(r: Stats, st: nat, models: map<string, PoreModel>, done: set<string>, name: string)
    requires st < 2 && Usable(models) && name in models
    ensures Serves(models[name], st) ==>
      IndependentOver(r, st, models, done + {name}) == IndependentOver(r, st, models, done)[Key(st, name) := Independent(r, models[name])]
    ensures !Serves(models[name], st) ==>
      IndependentOver(r, st, models, done + {name}) == IndependentOver(r, st, models, done)
  {
    var before := IndependentOver(r, st, models, done);
    var after := IndependentOver(r, st, models, done + {name});
    forall other | other in models ensures Key(st, other) == Key(st, name) <==> other == name {
      KeyInjective(st, other, name);
    }
    if Serves(models[name], st) {
      var updated := before[Key(st, name) := Independent(r, models[name])];
      assert after.Keys == updated.Keys;
      assert forall k :: k in after ==> after[k] == updated[k];
    } else {
      assert after.Keys == before.Keys;
      assert forall k :: k in after ==> after[k] == before[k];
    }
  }

  /** The model loop of the per-strand branch: every model serving strand st
      gets its scaling stored under its key, and the key is recorded among the
      state-transition parameters. */
  method AddIndependent(pm: map<ModelKey, ScaleParams>, stKeys: set<ModelKey>, r: Stats, st: nat, models: map<string, PoreModel>)
    returns (pm': map<ModelKey, ScaleParams>, stKeys': set<ModelKey>)
    requires st < 2 && Usable(models)
    ensures pm' == pm + IndependentCandidates(r, st, models)
    ensures stKeys' == stKeys + IndependentCandidates(r, st, models).Keys
  {
    pm', stKeys' := pm, stKeys;
    var done: set<string> := {};
    while done != models.Keys
      invariant done <= models.Keys
      invariant pm' == pm + IndependentOver(r, st, models, done)
      invariant stKeys' == stKeys + IndependentOver(r, st, models, done).Keys
      decreases |models.Keys - done|
    {
      var name :| name in models.Keys - done;
      IndependentStep(r, st, models, done, name);
      if Serves(models[name], st) {
        var q := Independent(r, models[name]);
        UpdateOfUnion(pm, IndependentOver(r, st, models, done), Key(st, name), q);
        pm' := pm'[Key(st, name) := q];
        stKeys' := stKeys' + {Key(st, name)};
      }
      done := done + {name};
    }
  }

  /** The inner model loop of the joint branch, for template model `a`:
      every model serving the complement is paired with it. */
  method AddPairs(pm: map<ModelKey, ScaleParams>, stKeys: set<ModelKey>, r0: Stats, r1: Stats,
                  models: map<string, PoreModel>, a: string)
    returns (pm': map<ModelKey, ScaleParams>, stKeys': set<ModelKey>)
    requires Usable(models) && a in models && Serves(models[a], 0)
    ensures JointAdded(pm', pm, r0, r1, models, {a})
    ensures JointKeysAdded(stKeys', stKeys, models, {a})
  {
    pm', stKeys' := pm, stKeys;
    var seen: set<string> := {};
    while seen != models.Keys
      invariant seen <= models.Keys
      invariant forall k :: k in pm' <==> k in pm || (IsJointKey(models, {a}, k) && k.1 in seen)
      invariant forall k :: k in pm' && IsJointKey(models, {a}, k) && k.1 in seen ==> pm'[k] == Joint(r0, r1, models[a], models[k.1])
      invariant forall k :: k in pm' && !(IsJointKey(models, {a}, k) && k.1 in seen) ==> pm'[k] == pm[k]
      invariant forall k :: k in stKeys' <==> k in stKeys || (IsJointKey(models, {a}, k) && k.1 in seen)
      decreases |models.Keys - seen|
    {
      var b :| b in models.Keys - seen;
      if Serves(models[b], 1) {
        pm' := pm'[(a, b) := Joint(r0, r1, models[a], models[b])];
        stKeys' := stKeys' + {(a, b)};
      }
      seen := seen + {b};
    }
  }

  /** The nested model loops of the joint branch: every (template, complement)
      pair of serving models gets its joint scaling, and nothing else changes. */
  method AddJoint(pm: map<ModelKey, ScaleParams>, stKeys: set<ModelKey>, r0: Stats, r1: Stats, models: map<string, PoreModel>)
    returns (pm': map<ModelKey, ScaleParams>, stKeys': set<ModelKey>)
    requires Usable(models)
    ensures JointAdded(pm', pm, r0, r1, models, models.Keys)
    ensures JointKeysAdded(stKeys', stKeys, models, models.Keys)
  {
    pm', stKeys' := pm, stKeys;
    var done: set<string> := {};
    while done != models.Keys
      invariant done <= models.Keys
      invariant JointAdded(pm', pm, r0, r1, models, done)
      invariant JointKeysAdded(stKeys', stKeys, models, done)
      decreases |models.Keys - done|
    {
      var a :| a in models.Keys - done;
      if Serves(models[a], 0) {
        ghost var pmDone, keysDone := pm', stKeys';
        pm', stKeys' := AddPairs(pm', stKeys', r0, r1, models, a);
        JointAddedCompose(pm', pmDone, pm, r0, r1, models, done, a);
        JointKeysAddedCompose(stKeys', keysDone, stKeys, models, done, a);
      } else {
        JointAddedSkip(pm', pm, r0, r1, models, done, a);
        JointKeysAddedSkip(stKeys', stKeys, models, done, a);
      }
      done := done + {a};
    }
  }

  lemma JointAddedCompose(pm'': map<ModelKey, ScaleParams>, pm': map<ModelKey, ScaleParams>, pm: map<ModelKey, ScaleParams>,
                          r0: Stats, r1: Stats, models: map<string, PoreModel>, done: set<string>, a: string)
    requires Usable(models) && a !in done
    requires JointAdded(pm', pm, r0, r1, models, done) && JointAdded(pm'', pm', r0, r1, models, {a})
    ensures JointAdded(pm'', pm, r0, r1, models, done + {a})
  {
  }

  lemma JointKeysAddedCompose(keys'': set<ModelKey>, keys': set<ModelKey>, keys: set<ModelKey>,
                              models: map<string, PoreModel>, done: set<string>, a: string)
    requires JointKeysAdded(keys', keys, models, done) && JointKeysAdded(keys'', keys', models, {a})
    ensures JointKeysAdded(keys'', keys, models, done + {a})
  {
  }

  lemma JointAddedSkip(pm': map<ModelKey, ScaleParams>, pm: map<ModelKey, ScaleParams>,
                       r0: Stats, r1: Stats, models: map<string, PoreModel>, done: set<string>, a: string)
    requires Usable(models) && a in models && !Serves(models[a], 0)
    requires JointAdded(pm', pm, r0, r1, models, done)
    ensures JointAdded(pm', pm, r0, r1, models, done + {a})
  {
  }

  lemma JointKeysAddedSkip(keys': set<ModelKey>, keys: set<ModelKey>, models: map<string, PoreModel>, done: set<string>, a: string)
    requires a in models && !Serves(models[a], 0)
    requires JointKeysAdded(keys', keys, models, done)
    ensures JointKeysAdded(keys', keys, models, done + {a})
  {
  }

  /** Both strands are scaled together when asked to and both bound ranges
      hold at least `minEvents` events. */
  function ScaleTogether(sst: bool, b: StrandBounds, minEvents: nat): bool
  {
    sst && b.templateEnd - b.templateStart >= minEvents && b.complementEnd - b.complementStart >= minEvents
  }

  /** The same test on `unsigned` bounds: an inverted range wraps around to a
      large length. */
  function ScaleTogetherAsWritten(sst: bool, b: StrandBounds, minEvents: nat): bool
    requires b.templateStart >= 0 && b.templateEnd >= 0 && b.complementStart >= 0 && b.complementEnd >= 0
  {
    sst && Sub32(b.templateEnd, b.templateStart) >= minEvents && Sub32(b.complementEnd, b.complementStart) >= minEvents
  }

  /** Joint scaling needs both strand ranges to hold at least `minEvents`
      events, so an inverted or empty complement range never turns it on. */
  lemma ScaleTogetherNeedsBothStrands(sst: bool, b: StrandBounds, minEvents: nat)
    requires minEvents >= 1
    ensures ScaleTogether(sst, b, minEvents) ==>
      && sst
      && b.templateStart + minEvents <= b.templateEnd
      && b.complementStart + minEvents <= b.complementEnd
    ensures b.complementEnd <= b.complementStart ==> !ScaleTogether(sst, b, minEvents)
  {
  }

  /** An island [400, 950) of a 1000-event read is the hairpin (its start is
      100 from the middle), so the complement starts at 450 and ends at 400:
      empty. The unsigned test still turns joint scaling on; the integer test
      does not. */
  lemma InvertedComplementScaledTogetherAsWritten()
    ensures var b := FromIslands([Island(400, 950)], 1000, Margins(50, 50, 50, 50), TemplateOnlyBounds(1000, Margins(50, 50, 50, 50)));
      && b == StrandBounds(50, 350, 450, 400)
      && ScaleTogetherAsWritten(true, b, 10)
      && !ScaleTogether(true, b, 10)
  {
    assert DistToMiddle(Island(400, 950), 1000) == 100;
  }
}
