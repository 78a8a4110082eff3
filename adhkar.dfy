/** The fixed, ordered list of dhikr categories the counter tracks (App.js:33-40). */
module Adhkar {

  datatype Option<T> = None | Some(value: T)

  /** One entry of ADHKAR_LIST. */
  datatype Dhikr =
    | Subhanallah
    | Alhamdulillah
    | AllahuAkbar
    | LaIlahaIllallah
    | Astaghfirullah
    | LaHawla

  /** The text of each dhikr, which is also its key in the count objects and in storage. */
  function Text(d: Dhikr): (text: string) {
    match d
    case Subhanallah => "سبحان الله"
    case Alhamdulillah => "الحمد لله"
    case AllahuAkbar => "الله أكبر"
    case LaIlahaIllallah => "لا إله إلا الله"
    case Astaghfirullah => "أستغفر الله"
    case LaHawla => "لا حول ولا قوة إلا بالله"
  }

  /** ADHKAR_LIST: the categories, in the order the picker and the statistics visit them. */
  const AdhkarList: seq<Dhikr> :=
    [Subhanallah, Alhamdulillah, AllahuAkbar, LaIlahaIllallah, Astaghfirullah, LaHawla]

  /** No entry occurs twice in `keys`. */
  predicate Distinct(keys: seq<Dhikr>) {
    forall i, j :: 0 <= i < j < |keys| ==> keys[i] != keys[j]
  }

  /** The list names every dhikr exactly once, so a count object built over it has one
      entry per dhikr. */
  lemma AdhkarListComplete(d: Dhikr)
    ensures |AdhkarList| == 6
    ensures Distinct(AdhkarList)
    ensures d in AdhkarList
  {
  }

  /** Different dhikr have different texts. */
  lemma TextInjective(d: Dhikr, e: Dhikr)
    ensures Text(d) == Text(e) ==> d == e
  {
  }

  /** `keys.includes(s)` on the texts of `keys`, answering with the dhikr found. */
  function Lookup(keys: seq<Dhikr>, s: string): (r: Option<Dhikr>)
    ensures r.Some? ==> r.value in keys && Text(r.value) == s
    ensures r.None? ==> forall d :: d in keys ==> Text(d) != s
  {
    if keys == [] then None
    else if Text(keys[0]) == s then Some(keys[0])
    else Lookup(keys[1..], s)
  }

  /** `ADHKAR_LIST.includes(s)` (App.js:128): the dhikr whose text is `s`, if any. */
  function Parse(s: string): (r: Option<Dhikr>)
    ensures r.Some? ==> Text(r.value) == s
    ensures r.None? ==> forall d: Dhikr :: Text(d) != s
  {
    Lookup(AdhkarList, s)
  }

  /** Reading back the text of a dhikr gives that dhikr. */
  lemma ParseText(d: Dhikr)
    ensures Parse(Text(d)) == Some(d)
  {
    var r := Parse(Text(d));
    assert r.Some?;
    TextInjective(r.value, d);
  }

  /** Builds the all-zero count object with a forEach over the list, as the initial
      state and clearAllData do (App.js:52-58, 61-67, 266-269). */
  method ZeroCounts() returns (counts: map<Dhikr, nat>)
    ensures forall d :: d in counts && counts[d] == 0
  {
    counts := map[];
    for i := 0 to |AdhkarList|
      invariant forall d :: d in counts <==> d in AdhkarList[..i]
      invariant forall d :: d in counts ==> counts[d] == 0
    {
      counts := counts[AdhkarList[i] := 0];
    }
    forall d ensures d in counts {
      AdhkarListComplete(d);
    }
  }
}
