/** A concrete run showing that the premise on versions is needed: a provider that supplies
    no versions lets a change of bytes reach Get without the gate ever being shown it. */
module EngineWitness {
  import opened Values
  import opened Chain
  import opened Intake
  import opened Engine
  import opened EngineRuns

  type Config = map<string, string>

  const SpecA := FieldSpec("A", [Ref("env", "env:A", None)], "", false, false, false, KeepLast)
  const SpecB := FieldSpec("B", [Ref("env", "env:B", None)], "", false, false, false, KeepLast)

  function Plain(bytes: string, version: string): Value {
    Value(bytes, version, false, None, map[])
  }

  function Same(ref: Ref, v: Value): Result<Value> { Ok(v) }

  function Put(c: Config, p: string, b: string): Result<Config> { Ok(c[p := b]) }

  function Fine(c: Config): Option<Err> { None }

  function Unread(c: Config, p: string): Option<string> { None }

  function Hash(s: string): string { s }

  const WitnessSetup := Setup([SpecA, SpecB], Same, 500, 0)

  const WitnessParams: Params<Config> :=
    Params(WitnessSetup, Hooks(map[], Put, [], Fine, Unread, Hash), true, 0)

  const Yes := Gate(None, None)

  const Obs0 := map["A" := Plain("a0", ""), "B" := Plain("b0", "1")]

  const S0: State<Config> := State(
    Front(Sense(Obs0, map["A" := 0, "B" := 0], map[], [[Unseen], [Unseen]], {}, []), EmptyBatch),
    Book(map["A" := "a0", "B" := "b0"], 1, map["A" := "", "B" := "1"],
         [Snapshot(1, 0, map["A" := "a0", "B" := "b0"], [], map["A" := "", "B" := "1"])],
         [Accepted(Snapshot(1, 0, map["A" := "a0", "B" := "b0"], [], map["A" := "", "B" := "1"]), map[],
                   [FieldChange("A", "", ""), FieldChange("B", "", "1")], Obs0, Yes)], None),
    PinState(false, 0, map["A" := "a0", "B" := "b0"], map[]),
    Out(map["A" := "a0", "B" := "b0"], []))

  lemma BuildTwo(a: Value, b: Value)
    ensures BuildConfig([SpecA, SpecB], WitnessParams.hooks, map["A" := a, "B" := b]) == Ok(map["A" := a.bytes, "B" := b.bytes])
  {
    var specs, h, obs := [SpecA, SpecB], WitnessParams.hooks, map["A" := a, "B" := b];
    assert DecodeFrom(specs, h, obs, 2, map["A" := a.bytes, "B" := b.bytes]) == Ok(map["A" := a.bytes, "B" := b.bytes]);
    assert DecodeFrom(specs, h, obs, 1, map["A" := a.bytes]) == Ok(map["A" := a.bytes, "B" := b.bytes]);
    assert DeriveFrom(h, 0, map["A" := a.bytes, "B" := b.bytes]) == Ok(map["A" := a.bytes, "B" := b.bytes]);
  }

  lemma WitnessSpecsValid()
    ensures ValidSpecs([SpecA, SpecB]) && Paths([SpecA, SpecB]) == {"A", "B"}
  {
    var specs := [SpecA, SpecB];
    assert specs[0].path == "A" && specs[1].path == "B";
    assert "A"[0] != "B"[0];
    assert Paths(specs) == {"A", "B"};
  }

  lemma WitnessLoaded()
    ensures Loaded(WitnessParams, Obs0, [[Unseen], [Unseen]], Yes, 0, S0)
  {
    WitnessSpecsValid();
    BuildTwo(Plain("a0", ""), Plain("b0", "1"));
    var specs := [SpecA, SpecB];
    assert InitialFieldsFrom(specs, Obs0, 2) == [];
    assert InitialFieldsFrom(specs, Obs0, 1) == [FieldChange("B", "", "1")];
    assert InitialFieldsFrom(specs, Obs0, 0) == [FieldChange("A", "", ""), FieldChange("B", "", "1")];
    assert Versions(Obs0) == map["A" := "", "B" := "1"];
    assert (map p | p in Obs0 :: 0) == map["A" := 0, "B" := 0];
    assert DerivedChanges(specs, WitnessParams.hooks, map[], map["A" := "a0", "B" := "b0"]) == [];
    SameBook(Load(WitnessParams, Obs0, [[Unseen], [Unseen]], Yes, 0));
  }

  lemma SameBook(loaded: Result<State<Config>>)
    requires loaded == Load(WitnessParams, Obs0, [[Unseen], [Unseen]], Yes, 0) && loaded.Ok?
    requires loaded.value.front == S0.front && loaded.value.out == S0.out && loaded.value.pin == S0.pin
    requires var l, m := loaded.value.book, S0.book;
             |l.log| == 1 && l.log[0] == m.log[0] && l.(log := m.log) == m
    ensures loaded.value == S0
  {
    assert loaded.value.book.log == S0.book.log;
  }

  function NewA(): Event { Update(0, 0, Answer(Plain("a1", "")), 1) }
  function NewB(): Event { Update(1, 0, Answer(Plain("b1", "2")), 2) }

  const Obs1 := map["A" := Plain("a1", ""), "B" := Plain("b0", "1")]
  const Obs2 := map["A" := Plain("a1", ""), "B" := Plain("b1", "2")]

  const Front1 := Front(
    Sense(Obs1, map["A" := 1, "B" := 0], map[], [[Holds(Plain("a1", ""))], [Unseen]], {}, []),
    Batch({"A"}, 1, 500, Some(501), [Join("A", 1, 500)]))

  const Front2 := Front(
    Sense(Obs2, map["A" := 1, "B" := 2], map[], [[Holds(Plain("a1", ""))], [Holds(Plain("b1", "2"))]], {}, []),
    Batch({"A", "B"}, 1, 500, Some(501), [Join("A", 1, 500), Join("B", 2, 500)]))

  lemma StepA()
    ensures Shaped(WitnessSetup, S0.front.sense.sources) && Enabled(WitnessParams, S0, NewA(), 0)
    ensures Step(WitnessParams, S0, NewA(), 0) == S0.(front := Front1)
  {
    WitnessSpecsValid();
    var s := Record(WitnessSetup, S0.front.sense, 0, 0, Answer(Plain("a1", "")));
    assert Settle(Same, SpecA, SpecA.refs[0], Answer(Plain("a1", ""))) == Holds(Plain("a1", ""));
    assert s.sources[0] == [Holds(Plain("a1", ""))] && s.sources[1] == [Unseen];
    assert s.sources == [[Holds(Plain("a1", ""))], [Unseen]];
    assert RecomputeFrom(s.sources[0], 0) == Won(0, Plain("a1", ""));
    assert "a0"[1] != "a1"[1];
    assert DebounceFrom(SpecA.refs, 1, None) == None;
    assert DebounceFor(WitnessSetup, SpecA) == 500;
  }

  lemma StepB()
    ensures var s := S0.(front := Front1);
            && Shaped(WitnessSetup, s.front.sense.sources) && Enabled(WitnessParams, s, NewB(), 1)
            && Step(WitnessParams, s, NewB(), 1) == S0.(front := Front2)
  {
    WitnessSpecsValid();
    var s := Record(WitnessSetup, Front1.sense, 1, 0, Answer(Plain("b1", "2")));
    assert Settle(Same, SpecB, SpecB.refs[0], Answer(Plain("b1", "2"))) == Holds(Plain("b1", "2"));
    assert s.sources[0] == [Holds(Plain("a1", ""))] && s.sources[1] == [Holds(Plain("b1", "2"))];
    assert s.sources == [[Holds(Plain("a1", ""))], [Holds(Plain("b1", "2"))]];
    assert RecomputeFrom(s.sources[1], 0) == Won(0, Plain("b1", "2"));
    assert "1"[0] != "2"[0];
    assert DebounceFrom(SpecB.refs, 1, None) == None;
    assert DebounceFor(WitnessSetup, SpecB) == 500;
  }

  function Due(): Event { Fire(Yes, 501) }

  lemma StepFire()
    ensures var s := S0.(front := Front2);
            && Shaped(WitnessSetup, s.front.sense.sources) && Enabled(WitnessParams, s, Due(), 2)
            && var log := Step(WitnessParams, s, Due(), 2).book.log;
               |log| == 2 && log[0].obs == Obs0 && log[1].obs == Obs2 && log[1].shown == [FieldChange("B", "1", "2")]
  {
    WitnessSpecsValid();
    var s := S0.(front := Front2);
    BuildTwo(Plain("a1", ""), Plain("b1", "2"));
    var specs, applied := [SpecA, SpecB], map["A" := "", "B" := "1"];
    assert "1"[0] != "2"[0];
    assert DiffFrom(specs, applied, Obs2, 2) == [];
    assert DiffFrom(specs, applied, Obs2, 1) == [FieldChange("B", "1", "2")];
    assert DiffFrom(specs, applied, Obs2, 0) == [FieldChange("B", "1", "2")];
    assert Fields(WitnessParams, s, map["A" := "a1", "B" := "b1"]) == [FieldChange("B", "1", "2")];
  }

  lemma WitnessRuns() returns (t: State<Config>)
    ensures RunsTo(WitnessParams, S0, [NewA(), NewB(), Due()], 0, t)
    ensures |t.book.log| == 2 && t.book.log[0].obs == Obs0 && t.book.log[1].obs == Obs2 && t.book.log[1].shown == [FieldChange("B", "1", "2")]
  {
    var s1, s2 := S0.(front := Front1), S0.(front := Front2);
    StepFire();
    t := Step(WitnessParams, s2, Due(), 2);
    RunNothing(WitnessParams, t, 501);
    RunFirst(WitnessParams, s2, Due(), [], 2, t);
    assert [Due()] + [] == [Due()];
    StepB();
    RunFirst(WitnessParams, s1, NewB(), [Due()], 1, t);
    assert [NewB()] + [Due()] == [NewB(), Due()];
    StepA();
    RunFirst(WitnessParams, S0, NewA(), [NewB(), Due()], 0, t);
    assert [NewA()] + [NewB(), Due()] == [NewA(), NewB(), Due()];
  }

  lemma NotShown(log: seq<Accepted<Config>>)
    requires |log| == 2 && log[0].obs == Obs0 && log[1].obs == Obs2 && log[1].shown == [FieldChange("B", "1", "2")]
    ensures !AllCovered([SpecA, SpecB], log)
  {
    var specs := [SpecA, SpecB];
    assert specs[0].path == "A";
    assert "a0"[1] != "a1"[1];
    assert "A"[0] != "B"[0];
    assert BytesOf(Obs0, "A") == Some("a0") && BytesOf(Obs2, "A") == Some("a1");
    assert !Covered(specs, log[0].obs, log[1].obs, log[1].shown);
  }

  /** The run: A's bytes change under an empty version, B rotates, the gate accepts B, and
      the accepted configuration carries A's new bytes although A was never shown. */
  lemma UnversionedChangeRidesIn() returns (t: State<Config>)
    ensures Loaded(WitnessParams, Obs0, [[Unseen], [Unseen]], Yes, 0, S0)
    ensures RunsTo(WitnessParams, S0, [NewA(), NewB(), Due()], 0, t) && !AllCovered(WitnessParams.setup.specs, t.book.log)
  {
    WitnessLoaded();
    t := WitnessRuns();
    NotShown(t.book.log);
  }
}
