/**
 * The `cliff` searcher interface the drivers use: `next()` hands out the next
 * probe (a target, a scale or a memory limit) and `overloaded()` tells the
 * searcher that the probe it handed out last was too much. How an adaptive
 * searcher picks its next value is not modelled: a searcher here is the
 * sequence of values it hands out in one run, and every `overloaded()` call is
 * logged with the number of values handed out at the time.
 */
module Search {
  import opened Wrappers

  class Searcher {
    /** The values `next()` still hands out. */
    var queue: seq<nat>
    /** How many values `next()` has handed out so far. */
    var served: nat
    /** One entry per `overloaded()` call: the value of `served` at that call. */
    var marks: seq<nat>

    constructor (probes: seq<nat>)
      ensures queue == probes && served == 0 && marks == []
    {
      queue := probes;
      served := 0;
      marks := [];
    }

    /** `next()`: the next value, or `None` once the searcher is done. */
    method Next() returns (p: Option<nat>)
      modifies this
      ensures old(queue) == [] ==> p == None && queue == [] && served == old(served)
      ensures old(queue) != [] ==> p == Some(old(queue)[0]) && queue == old(queue)[1..] && served == old(served) + 1
      ensures marks == old(marks)
    {
      if queue == [] {
        p := None;
      } else {
        p := Some(queue[0]);
        queue := queue[1..];
        served := served + 1;
      }
    }

    /** `overloaded()`: the most recently handed-out value was too much. */
    method Overloaded()
      modifies this
      ensures marks == old(marks) + [old(served)]
      ensures queue == old(queue) && served == old(served)
    {
      marks := marks + [served];
    }
  }
}
