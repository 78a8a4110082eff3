/** The tally store of the `App` component (App.js:47-336): the selected dhikr, the lifetime
    total and the current-session count of every dhikr, and the operations that change them. */
module Store {
  import opened Adhkar
  import opened Statistics

  /** What calculateStatistics returns (App.js:330-335). */
  datatype Stats = Stats(totalAll: nat, currentAll: nat, mostUsedDhikr: Dhikr, maxCount: nat)

  /** The selection after loadData has read the stored one (App.js:125-131): `stored` is the
      parsed value, or None when nothing was stored or it could not be read. A stored value
      replaces the selection only when it is the text of a dhikr of the list. */
  function SelectionAfterLoad(previous: Dhikr, stored: Option<string>): (selected: Dhikr)
    ensures stored.Some? && (exists d :: Text(d) == stored.value) ==> Text(selected) == stored.value
    ensures stored.None? || (forall d :: Text(d) != stored.value) ==> selected == previous
    ensures selected != previous ==> stored.Some? && Text(selected) == stored.value
  {
    match stored
    case Some(loadedSelected) =>
      (match Parse(loadedSelected)
       case Some(d) => d
       case None => previous)
    case None => previous
  }

  class App {
    var selectedDhikr: Dhikr
    var totalCounts: map<Dhikr, nat>
    var currentCounts: map<Dhikr, nat>

    /** Both count objects hold an entry for every dhikr. */
    ghost predicate Valid()
      reads this
    {
      forall d :: d in totalCounts && d in currentCounts
    }

    /** No session count exceeds its lifetime total. It holds from the initial state on;
        only counts loaded from storage, which this model does not read, could break it. */
    ghost predicate CurrentWithinTotal()
      reads this
      requires Valid()
    {
      forall d :: currentCounts[d] <= totalCounts[d]
    }

    /** The initial state (App.js:49-67): the first dhikr of the list selected, every count zero. */
    constructor ()
      ensures Valid() && CurrentWithinTotal()
      ensures selectedDhikr == AdhkarList[0]
      ensures forall d :: totalCounts[d] == 0 && currentCounts[d] == 0
    {
      selectedDhikr := AdhkarList[0];
      var totals := ZeroCounts();
      var current := ZeroCounts();
      totalCounts := totals;
      currentCounts := current;
    }

    /** incrementCounter (App.js:207-217): one more for the selected dhikr, in both its
        session count and its lifetime total; nothing else changes. */
    method IncrementCounter()
      requires Valid()
      modifies this
      ensures Valid()
      ensures selectedDhikr == old(selectedDhikr)
      ensures currentCounts == old(currentCounts[selectedDhikr := currentCounts[selectedDhikr] + 1])
      ensures totalCounts == old(totalCounts[selectedDhikr := totalCounts[selectedDhikr] + 1])
      ensures SumAll(currentCounts) == old(SumAll(currentCounts)) + 1
      ensures SumAll(totalCounts) == old(SumAll(totalCounts)) + 1
      ensures old(CurrentWithinTotal()) ==> CurrentWithinTotal()
    {
      var dhikr := selectedDhikr;
      var current := currentCounts[dhikr := CountOf(currentCounts, dhikr) + 1];
      var totals := totalCounts[dhikr := totalCounts[dhikr] + 1];
      SumAllUpdate(currentCounts, dhikr, current[dhikr]);
      SumAllUpdate(totalCounts, dhikr, totals[dhikr]);
      currentCounts, totalCounts := current, totals;
    }

    /** resetCurrentCounter (App.js:223-256): once confirmed, the selected dhikr's session
        count returns to zero; its total and every other dhikr's counts stay. Without
        confirmation nothing changes. */
    method ResetCurrentCounter(confirmed: bool)
      requires Valid()
      modifies this
      ensures Valid()
      ensures selectedDhikr == old(selectedDhikr)
      ensures totalCounts == old(totalCounts)
      ensures confirmed ==> currentCounts == old(currentCounts[selectedDhikr := 0])
      ensures !confirmed ==> currentCounts == old(currentCounts)
      ensures confirmed ==> SumAll(currentCounts) + old(currentCounts[selectedDhikr]) == old(SumAll(currentCounts))
      ensures old(CurrentWithinTotal()) ==> CurrentWithinTotal()
    {
      if confirmed {
        SumAllUpdate(currentCounts, selectedDhikr, 0);
        currentCounts := currentCounts[selectedDhikr := 0];
      }
    }

    /** clearAllData (App.js:261-300): once confirmed, every dhikr's total and session count
        is zero whatever they were; the selection stays. Without confirmation nothing changes. */
    method ClearAllData(confirmed: bool)
      requires Valid()
      modifies this
      ensures Valid()
      ensures selectedDhikr == old(selectedDhikr)
      ensures confirmed ==> forall d :: totalCounts[d] == 0 && currentCounts[d] == 0
      ensures confirmed ==> SumAll(totalCounts) == 0 && SumAll(currentCounts) == 0
      ensures confirmed ==> CurrentWithinTotal()
      ensures !confirmed ==> totalCounts == old(totalCounts) && currentCounts == old(currentCounts)
      ensures !confirmed && old(CurrentWithinTotal()) ==> CurrentWithinTotal()
    {
      if confirmed {
        var resetCounts := ZeroCounts();
        SumOverZeroIff(AdhkarList, resetCounts);
        totalCounts := resetCounts;
        currentCounts := resetCounts;
      }
    }

    /** handleDhikrChange (App.js:305-308): selects the dhikr picked from the list; every
        dhikr keeps its own counts. */
    method HandleDhikrChange(dhikr: Dhikr)
      requires Valid()
      modifies this
      ensures Valid()
      ensures selectedDhikr == dhikr
      ensures totalCounts == old(totalCounts) && currentCounts == old(currentCounts)
    {
      selectedDhikr := dhikr;
    }

    /** The selection step of loadData (App.js:124-131). */
    method LoadSelectedDhikr(stored: Option<string>)
      requires Valid()
      modifies this
      ensures Valid()
      ensures selectedDhikr == SelectionAfterLoad(old(selectedDhikr), stored)
      ensures totalCounts == old(totalCounts) && currentCounts == old(currentCounts)
    {
      match stored {
        case Some(loadedSelected) =>
          var found := Parse(loadedSelected);
          if found.Some? {
            selectedDhikr := found.value;
          }
        case None =>
      }
    }

    /** calculateStatistics (App.js:313-336): the grand totals of both count objects, and the
        earliest dhikr in list order with the largest total, together with that total. */
    method CalculateStatistics() returns (stats: Stats)
      requires Valid()
      ensures stats.totalAll == SumAll(totalCounts)
      ensures stats.currentAll == SumAll(currentCounts)
      ensures exists i :: FirstMaximum(totalCounts, i) && stats.mostUsedDhikr == AdhkarList[i]
      ensures stats.maxCount == totalCounts[stats.mostUsedDhikr]
      ensures stats.maxCount <= stats.totalAll
      ensures stats.maxCount > 0 <==> stats.totalAll > 0
      ensures CurrentWithinTotal() ==> stats.currentAll <= stats.totalAll
    {
      var totalAll := Reduce(Values(AdhkarList, totalCounts), 0);
      var currentAll := Reduce(Values(AdhkarList, currentCounts), 0);
      ReduceIsSum(Values(AdhkarList, totalCounts), 0);
      ReduceIsSum(Values(AdhkarList, currentCounts), 0);
      var mostUsedDhikr, maxCount := MostUsed(totalCounts);
      ghost var i :| FirstMaximum(totalCounts, i) && mostUsedDhikr == AdhkarList[i];
      MaximumAgainstSum(totalCounts, i);
      if CurrentWithinTotal() {
        SumOverMonotone(AdhkarList, currentCounts, totalCounts);
      }
      stats := Stats(totalAll, currentAll, mostUsedDhikr, maxCount);
    }
  }
}
