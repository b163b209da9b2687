/**
 `XSLTProcess`: a document is transformed by a root task, the calling thread waits for the latch.
 */
module Transform {
  import opened Wrappers
  import opened Activities
  import opened Confluence
  import opened ForkJoin
  import opened Bodies
  import opened Instructions
  import opened Laws
  import opened Meaning

  /** The engine with the instruction set of XSLT over a given document and stylesheet. */
  function Engine(o: Oracle): Machine<Activity> {
    Runner(Xslt(o))
  }

  /** The first activity: the document's root node is to be processed into an empty result node. */
  function First(document: DocNode): Activity {
    [Slot(Whole(document), Node([]))]
  }

  lemma EngineIsSound(o: Oracle, document: DocNode)
    ensures Engine(o).Disciplined() && Engine(o).sinks(First(document)) <= {[]}
    ensures Xslt(o).Shaped()
  {
    RunnerIsDisciplined(Xslt(o));
    InstructionsAreShaped(o);
    SinksOfCons(First(document)[0], []);
    assert First(document) == First(document) + [];
  }

  /**
   Whatever the stylesheet of these instructions (none of which changes the document), the document,
   the number of threads, the `t:fork` attributes and the interleaving: when the join returns, no
   task is left, and the result tree is the meaning of the transformation, as the laws of the single
   instructions give it.
   */
  lemma ResultIsMeaning(o: Oracle, document: DocNode, threads: nat, run: seq<Label>, t: State<Activity>)
    requires Run(Engine(o), Start(First(document), threads), run) == Some(t) && t.waiter == Returned
    ensures var meaning := Meant(o, Frame([ProcessNode(None)], document, [], [], false));
      meaning.Some? && Holds(t.cfg.store, [], Tree(Placeholder, meaning.value.0))
    ensures t.cfg.acts == map[] && t.queue == []
  {
    EngineIsSound(o, document);
    var m, s := Engine(o), Start(First(document), threads);
    StartGood(m, First(document), threads);
    RunIsSchedule(m, s, run, t);
    ZeroMeansDone(m, t);
    var schedule := Moves(m, s, run);
    CompleteMeansDefined(Xslt(o), document, schedule, t.cfg.store);
    var fuel := |schedule| + 1;
    ResultIs(Xslt(o), Whole(document), fuel);
    var other, store := MeaningIsBuilt(Xslt(o), document, fuel);
    var rest := Confluent(m, s.cfg, schedule, t.cfg.store, other, Config(store, map[]));
    assert rest == [];
  }

  /**
   A transformation that has a meaning is over after a bounded number of thread steps: there is a
   bound that no run with any number of threads exceeds, and until the latch is zero some thread
   can make a step.
   */
  lemma MeaningTerminates(o: Oracle, document: DocNode) returns (bound: nat)
    requires Meant(o, Frame([ProcessNode(None)], document, [], [], false)).Some?
    ensures Ends(Engine(o), First(document), bound)
  {
    EngineIsSound(o, document);
    var fuel: nat :| Eval(Xslt(o), fuel, Whole(document)).Some?;
    var schedule, store := MeaningIsBuilt(Xslt(o), document, fuel);
    CompletedMeansEnds(Engine(o), First(document), schedule, store);
    bound := 5 * |schedule| + 2;
  }
}
