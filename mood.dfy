/** Mood resolution of the front end: the mood-to-genre lexicon, the local
    keyword classifier used when the remote classifier fails, and the choice
    between the two. */
module Mood {
  import opened Seqs
  import opened Text

  /** The lists of the lexicon `moodToGenres`, one per mood key. */
  const Happy: seq<string> := ["Comedy", "Feel-good", "Adventure", "Family", "Romance"]
  const Sad: seq<string> := ["Drama", "Feel-good", "Romance", "Comedy", "Biography"]
  const Excited: seq<string> := ["Action", "Adventure", "Science Fiction", "Thriller", "War"]
  const Relaxed: seq<string> := ["Comedy", "Feel-good", "Adventure", "Family", "Romance"]
  const Stressed: seq<string> := ["Comedy", "Feel-good", "Adventure", "Family", "Romance"]
  const Romantic: seq<string> := ["Romance", "Drama", "Comedy", "Feel-good", "Musical"]
  const Mysterious: seq<string> := ["Mystery", "Thriller", "Crime", "Psychological", "Horror"]
  const Dark: seq<string> := ["Thriller", "Horror", "Crime", "Psychological", "Drama"]
  const Nostalgic: seq<string> := ["Classic", "Drama", "Feel-good", "Adventure", "Biography"]
  const Inspired: seq<string> := ["Drama", "Biography", "Adventure", "Epic", "Historical"]

  /** One `if` of the keyword classifier: trigger substrings and the list pushed. */
  datatype KeywordGroup = KeywordGroup(triggers: seq<string>, genres: seq<string>)

  const HappyGroup := KeywordGroup(["happy", "joy", "excited", "good"], Happy)
  const SadGroup := KeywordGroup(["sad", "depressed", "down"], Sad)
  const RomanticGroup := KeywordGroup(["romantic", "love", "romance"], Romantic)
  const MysteriousGroup := KeywordGroup(["mysterious", "mystery", "suspense"], Mysterious)
  const DarkGroup := KeywordGroup(["dark", "scary", "horror"], Dark)
  const InspiredGroup := KeywordGroup(["inspired", "motivated", "uplifting"], Inspired)
  const RelaxedGroup := KeywordGroup(["relaxed", "calm", "peaceful"], Relaxed)
  const StressedGroup := KeywordGroup(["stressed", "anxious", "worried"], Stressed)

  /** The eight groups, in the order they are tested. */
  const Groups: seq<KeywordGroup> := [
    HappyGroup, SadGroup, RomanticGroup, MysteriousGroup,
    DarkGroup, InspiredGroup, RelaxedGroup, StressedGroup]

  /** Some trigger of the group occurs in `text`. */
  predicate Triggered(text: string, g: KeywordGroup) {
    exists t :: t in g.triggers && Contains(text, t)
  }

  /** The lists of the groups triggered by `text`, concatenated in group order. */
  function Collect(text: string, groups: seq<KeywordGroup>): seq<string>
  {
    if groups == [] then []
    else
      var g := groups[|groups| - 1];
      Collect(text, groups[..|groups| - 1]) + Pushed(Triggered(text, g), g.genres)
  }

  /** What one `if (...) push(...list)` contributes. */
  function Pushed(fires: bool, list: seq<string>): seq<string>
  {
    if fires then list else []
  }

  /** `if (fires) { list.push(...genres) }`. */
  method PushIf(recommended: seq<string>, fires: bool, genres: seq<string>) returns (r: seq<string>)
    ensures r == recommended + Pushed(fires, genres)
  {
    r := recommended;
    if fires {
      r := r + genres;
    }
  }

  /** What the keyword classifier answers for `moodText`: the lists of the
      triggered groups, or the happy list when none is, without repetitions. */
  function MoodGenres(moodText: string): seq<string>
  {
    var m := Collect(Lower(moodText), Groups);
    Dedup(if m == [] then Happy else m)
  }

  /** `analyzeMood`: pushes the list of every triggered group, falls back to the
      happy list, then removes duplicates through a `Set`. */
  method AnalyzeMood(moodText: string) returns (genres: seq<string>)
    ensures genres == MoodGenres(moodText)
  {
    var text := Lower(moodText);
    var recommended: seq<string> := [];
    ghost var r0 := recommended;
    var happy := Triggered(text, HappyGroup);
    recommended := PushIf(recommended, happy, Happy);
    ghost var r1 := recommended;
    var sad := Triggered(text, SadGroup);
    recommended := PushIf(recommended, sad, Sad);
    ghost var r2 := recommended;
    var romantic := Triggered(text, RomanticGroup);
    recommended := PushIf(recommended, romantic, Romantic);
    ghost var r3 := recommended;
    var mysterious := Triggered(text, MysteriousGroup);
    recommended := PushIf(recommended, mysterious, Mysterious);
    ghost var r4 := recommended;
    var dark := Triggered(text, DarkGroup);
    recommended := PushIf(recommended, dark, Dark);
    ghost var r5 := recommended;
    var inspired := Triggered(text, InspiredGroup);
    recommended := PushIf(recommended, inspired, Inspired);
    ghost var r6 := recommended;
    var relaxed := Triggered(text, RelaxedGroup);
    recommended := PushIf(recommended, relaxed, Relaxed);
    ghost var r7 := recommended;
    var stressed := Triggered(text, StressedGroup);
    recommended := PushIf(recommended, stressed, Stressed);
    ghost var r8 := recommended;
    if |recommended| == 0 {
      recommended := recommended + Happy;
    }
    AnalyzeMoodSteps(moodText, text, happy, sad, romantic, mysterious, dark, inspired, relaxed, stressed,
                     r0, r1, r2, r3, r4, r5, r6, r7, r8, recommended);
    genres := RemoveDuplicates(recommended);
  }

  /** `[...new Set(xs)]`: a set of the elements seen so far decides what is kept. */
  method RemoveDuplicates(xs: seq<string>) returns (r: seq<string>)
    ensures r == Dedup(xs)
  {
    var seen: set<string> := {};
    r := [];
    var i := 0;
    while i < |xs|
      invariant 0 <= i <= |xs|
      invariant r == Dedup(xs[..i])
      invariant forall x :: x in seen <==> x in r
    {
      assert xs[..i + 1][..i] == xs[..i];
      if xs[i] !in seen {
        r := r + [xs[i]];
        seen := seen + {xs[i]};
      }
      i := i + 1;
    }
    assert xs[..i] == xs;
  }

  lemma TriggeredGroup0(text: string)
    ensures Triggered(text, HappyGroup) <==> Contains(text, "happy") || Contains(text, "joy") || Contains(text, "excited") || Contains(text, "good")
  {
    assert HappyGroup.triggers == ["happy", "joy", "excited", "good"];
  }
  lemma TriggeredGroup1(text: string)
    ensures Triggered(text, SadGroup) <==> Contains(text, "sad") || Contains(text, "depressed") || Contains(text, "down")
  {
    assert SadGroup.triggers == ["sad", "depressed", "down"];
  }
  lemma TriggeredGroup2(text: string)
    ensures Triggered(text, RomanticGroup) <==> Contains(text, "romantic") || Contains(text, "love") || Contains(text, "romance")
  {
    assert RomanticGroup.triggers == ["romantic", "love", "romance"];
  }
  lemma TriggeredGroup3(text: string)
    ensures Triggered(text, MysteriousGroup) <==> Contains(text, "mysterious") || Contains(text, "mystery") || Contains(text, "suspense")
  {
    assert MysteriousGroup.triggers == ["mysterious", "mystery", "suspense"];
  }
  lemma TriggeredGroup4(text: string)
    ensures Triggered(text, DarkGroup) <==> Contains(text, "dark") || Contains(text, "scary") || Contains(text, "horror")
  {
    assert DarkGroup.triggers == ["dark", "scary", "horror"];
  }
  lemma TriggeredGroup5(text: string)
    ensures Triggered(text, InspiredGroup) <==> Contains(text, "inspired") || Contains(text, "motivated") || Contains(text, "uplifting")
  {
    assert InspiredGroup.triggers == ["inspired", "motivated", "uplifting"];
  }
  lemma TriggeredGroup6(text: string)
    ensures Triggered(text, RelaxedGroup) <==> Contains(text, "relaxed") || Contains(text, "calm") || Contains(text, "peaceful")
  {
    assert RelaxedGroup.triggers == ["relaxed", "calm", "peaceful"];
  }
  lemma TriggeredGroup7(text: string)
    ensures Triggered(text, StressedGroup) <==> Contains(text, "stressed") || Contains(text, "anxious") || Contains(text, "worried")
  {
    assert StressedGroup.triggers == ["stressed", "anxious", "worried"];
  }

  /** One conditional push extends `Collect` by one group. */
  lemma CollectStep(text: string, gs: seq<KeywordGroup>, k: nat, before: seq<string>, after: seq<string>)
    requires k < |gs| && before == Collect(text, gs[..k])
    requires after == before + Pushed(Triggered(text, gs[k]), gs[k].genres)
    ensures after == Collect(text, gs[..k + 1])
  {
    assert gs[..k + 1][..k] == gs[..k];
  }

  /** Eight conditional pushes, taken one after the other from the empty list,
      build what `Collect` says for eight groups. */
  lemma CollectChain(text: string, gs: seq<KeywordGroup>,
                     r0: seq<string>, r1: seq<string>, r2: seq<string>, r3: seq<string>,
                     r4: seq<string>, r5: seq<string>, r6: seq<string>, r7: seq<string>,
                     r8: seq<string>)
    requires |gs| == 8 && r0 == []
    requires r1 == r0 + Pushed(Triggered(text, gs[0]), gs[0].genres)
    requires r2 == r1 + Pushed(Triggered(text, gs[1]), gs[1].genres)
    requires r3 == r2 + Pushed(Triggered(text, gs[2]), gs[2].genres)
    requires r4 == r3 + Pushed(Triggered(text, gs[3]), gs[3].genres)
    requires r5 == r4 + Pushed(Triggered(text, gs[4]), gs[4].genres)
    requires r6 == r5 + Pushed(Triggered(text, gs[5]), gs[5].genres)
    requires r7 == r6 + Pushed(Triggered(text, gs[6]), gs[6].genres)
    requires r8 == r7 + Pushed(Triggered(text, gs[7]), gs[7].genres)
    ensures r8 == Collect(text, gs)
  {
    assert gs[..0] == [];
    CollectStep(text, gs, 0, r0, r1);
    CollectStep(text, gs, 1, r1, r2);
    CollectStep(text, gs, 2, r2, r3);
    CollectStep(text, gs, 3, r3, r4);
    CollectStep(text, gs, 4, r4, r5);
    CollectStep(text, gs, 5, r5, r6);
    CollectStep(text, gs, 6, r6, r7);
    CollectStep(text, gs, 7, r7, r8);
    assert gs[..8] == gs;
  }

  /** The steps of `analyzeMood`, as the code takes them: lowercase, eight
      trigger tests, eight conditional pushes, the fallback. Whatever they
      build de-duplicates to `MoodGenres`. */
  lemma AnalyzeMoodSteps(moodText: string, text: string,
                         happy: bool, sad: bool, romantic: bool, mysterious: bool, dark: bool, inspired: bool, relaxed: bool, stressed: bool,
                         r0: seq<string>, r1: seq<string>, r2: seq<string>, r3: seq<string>, r4: seq<string>, r5: seq<string>, r6: seq<string>, r7: seq<string>, r8: seq<string>, recommended: seq<string>)
    requires text == Lower(moodText) && r0 == []
    requires happy == Triggered(text, HappyGroup)
    requires r1 == r0 + Pushed(happy, Happy)
    requires sad == Triggered(text, SadGroup)
    requires r2 == r1 + Pushed(sad, Sad)
    requires romantic == Triggered(text, RomanticGroup)
    requires r3 == r2 + Pushed(romantic, Romantic)
    requires mysterious == Triggered(text, MysteriousGroup)
    requires r4 == r3 + Pushed(mysterious, Mysterious)
    requires dark == Triggered(text, DarkGroup)
    requires r5 == r4 + Pushed(dark, Dark)
    requires inspired == Triggered(text, InspiredGroup)
    requires r6 == r5 + Pushed(inspired, Inspired)
    requires relaxed == Triggered(text, RelaxedGroup)
    requires r7 == r6 + Pushed(relaxed, Relaxed)
    requires stressed == Triggered(text, StressedGroup)
    requires r8 == r7 + Pushed(stressed, Stressed)
    requires recommended == if |r8| == 0 then r8 + Happy else r8
    ensures Dedup(recommended) == MoodGenres(moodText)
  {
    assert Groups[0] == HappyGroup && Groups[1] == SadGroup && Groups[2] == RomanticGroup;
    assert Groups[3] == MysteriousGroup && Groups[4] == DarkGroup && Groups[5] == InspiredGroup;
    assert Groups[6] == RelaxedGroup && Groups[7] == StressedGroup;
    CollectChain(text, Groups, r0, r1, r2, r3, r4, r5, r6, r7, r8);
    assert recommended == if r8 == [] then Happy else r8;
  }

  /** A genre is collected exactly when some triggered group lists it. */
  lemma {:induction false} CollectMembers(text: string, groups: seq<KeywordGroup>, x: string)
    ensures x in Collect(text, groups) <==>
      exists k :: 0 <= k < |groups| && Triggered(text, groups[k]) && x in groups[k].genres
  {
    if groups != [] {
      var n := |groups| - 1;
      var init := groups[..n];
      CollectMembers(text, init, x);
      if x in Collect(text, init) {
        var k :| 0 <= k < |init| && Triggered(text, init[k]) && x in init[k].genres;
        assert groups[k] == init[k];
      }
      if exists k :: 0 <= k < |groups| && Triggered(text, groups[k]) && x in groups[k].genres {
        var k :| 0 <= k < |groups| && Triggered(text, groups[k]) && x in groups[k].genres;
        if k < n {
          assert init[k] == groups[k];
        }
      }
    }
  }

  /** Nothing is collected exactly when no group is triggered, provided every
      group has a non-empty list. */
  lemma CollectEmpty(text: string, groups: seq<KeywordGroup>)
    requires forall k :: 0 <= k < |groups| ==> groups[k].genres != []
    ensures Collect(text, groups) == [] <==> forall k :: 0 <= k < |groups| ==> !Triggered(text, groups[k])
  {
    if Collect(text, groups) == [] {
      forall k | 0 <= k < |groups| ensures !Triggered(text, groups[k]) {
        CollectMembers(text, groups, groups[k].genres[0]);
      }
    } else {
      CollectMembers(text, groups, Collect(text, groups)[0]);
    }
  }

  /** What the first `n` groups contribute is a prefix of what all contribute. */
  lemma {:induction false} CollectExtends(text: string, groups: seq<KeywordGroup>, n: nat)
    requires n <= |groups|
    ensures |Collect(text, groups[..n])| <= |Collect(text, groups)|
    ensures Collect(text, groups)[..|Collect(text, groups[..n])|] == Collect(text, groups[..n])
    decreases |groups| - n
  {
    if n == |groups| {
      assert groups[..n] == groups;
    } else {
      var m := |groups| - 1;
      CollectExtends(text, groups[..m], n);
      assert groups[..m][..n] == groups[..n];
    }
  }

  /** A triggered first group puts its whole list first. */
  lemma CollectHead(text: string, groups: seq<KeywordGroup>)
    requires groups != [] && Triggered(text, groups[0])
    ensures |groups[0].genres| <= |Collect(text, groups)|
    ensures Collect(text, groups)[..|groups[0].genres|] == groups[0].genres
  {
    CollectExtends(text, groups, 1);
    assert groups[..1][..0] == [] && groups[..1][0] == groups[0];
  }

  lemma GroupsNonEmpty()
    ensures forall k :: 0 <= k < |Groups| ==> Groups[k].genres != []
  {
    forall k | 0 <= k < |Groups| ensures Groups[k].genres != [] {
      assert k == 0 || k == 1 || k == 2 || k == 3 || k == 4 || k == 5 || k == 6 || k == 7;
    }
  }

  /** `analyzeMood` never answers with an empty list. */
  lemma MoodGenresNonEmpty(moodText: string)
    ensures MoodGenres(moodText) != []
  {
    var m := Collect(Lower(moodText), Groups);
    DedupEmpty(if m == [] then Happy else m);
  }

  /** `analyzeMood` never repeats a genre. */
  lemma MoodGenresNoDup(moodText: string)
    ensures NoDup(MoodGenres(moodText))
  {
    var m := Collect(Lower(moodText), Groups);
    DedupNoDup(if m == [] then Happy else m);
  }

  /** The fallback is taken exactly when no group is triggered, and then the
      answer is the happy list exactly. */
  lemma MoodGenresDefault(moodText: string)
    ensures Collect(Lower(moodText), Groups) == [] <==>
      forall k :: 0 <= k < |Groups| ==> !Triggered(Lower(moodText), Groups[k])
    ensures Collect(Lower(moodText), Groups) == [] ==> MoodGenres(moodText) == Happy
  {
    GroupsNonEmpty();
    CollectEmpty(Lower(moodText), Groups);
    DedupOfNoDup(Happy);
  }

  /** The answer holds exactly the genres of the triggered groups, or the happy
      list when none is triggered. */
  lemma MoodGenresMembers(moodText: string, x: string)
    ensures x in MoodGenres(moodText) <==>
      (exists k :: 0 <= k < |Groups| && Triggered(Lower(moodText), Groups[k]) && x in Groups[k].genres) ||
      ((forall k :: 0 <= k < |Groups| ==> !Triggered(Lower(moodText), Groups[k])) && x in Happy)
  {
    var text := Lower(moodText);
    var m := Collect(text, Groups);
    DedupMembers(if m == [] then Happy else m);
    GroupsNonEmpty();
    CollectMembers(text, Groups, x);
    CollectEmpty(text, Groups);
  }

  /** The answer lists genres in order of first occurrence in the
      concatenated group lists: for every prefix of that list, its distinct
      genres open the answer, in the same order. */
  lemma MoodGenresOrder(moodText: string, n: nat)
    requires Collect(Lower(moodText), Groups) != [] && n <= |Collect(Lower(moodText), Groups)|
    ensures var firsts := Dedup(Collect(Lower(moodText), Groups)[..n]);
      |firsts| <= |MoodGenres(moodText)| && MoodGenres(moodText)[..|firsts|] == firsts
  {
    var m := Collect(Lower(moodText), Groups);
    assert MoodGenres(moodText) == Dedup(m);
    assert m == m[..n] + m[n..];
    DedupExtends(m[..n], m[n..]);
  }

  /** When the happy group fires (through "happy", "joy", "excited" or "good"),
      the answer starts with the whole happy list. */
  lemma MoodGenresHappyFirst(moodText: string)
    requires Triggered(Lower(moodText), HappyGroup)
    ensures |MoodGenres(moodText)| >= |Happy| && MoodGenres(moodText)[..|Happy|] == Happy
  {
    var text := Lower(moodText);
    var m := Collect(text, Groups);
    assert Groups[0] == HappyGroup;
    CollectHead(text, Groups);
    assert m == Happy + m[|Happy|..];
    DedupOfNoDup(Happy);
    DedupExtends(Happy, m[|Happy|..]);
  }

  /** A genre that no group lists is never answered. */
  lemma UnlistedNeverAnswered(moodText: string, x: string)
    requires x !in Happy && x !in Sad && x !in Romantic && x !in Mysterious
    requires x !in Dark && x !in Inspired && x !in Relaxed && x !in Stressed
    ensures x !in MoodGenres(moodText)
  {
    MoodGenresMembers(moodText, x);
    forall k | 0 <= k < |Groups| ensures x !in Groups[k].genres {
      assert k == 0 || k == 1 || k == 2 || k == 3 || k == 4 || k == 5 || k == 6 || k == 7;
    }
  }

  lemma ActionUnlisted()
    ensures "Action" !in Happy && "Action" !in Sad && "Action" !in Romantic && "Action" !in Mysterious
    ensures "Action" !in Dark && "Action" !in Inspired && "Action" !in Relaxed && "Action" !in Stressed
  {
  }

  lemma ScienceFictionUnlisted()
    ensures "Science Fiction" !in Happy && "Science Fiction" !in Sad && "Science Fiction" !in Romantic && "Science Fiction" !in Mysterious
    ensures "Science Fiction" !in Dark && "Science Fiction" !in Inspired && "Science Fiction" !in Relaxed && "Science Fiction" !in Stressed
  {
  }

  lemma WarUnlisted()
    ensures "War" !in Happy && "War" !in Sad && "War" !in Romantic && "War" !in Mysterious
    ensures "War" !in Dark && "War" !in Inspired && "War" !in Relaxed && "War" !in Stressed
  {
  }

  lemma ClassicUnlisted()
    ensures "Classic" !in Happy && "Classic" !in Sad && "Classic" !in Romantic && "Classic" !in Mysterious
    ensures "Classic" !in Dark && "Classic" !in Inspired && "Classic" !in Relaxed && "Classic" !in Stressed
  {
  }

  /** The `excited` and `nostalgic` lists are never used: Action, Science
      Fiction, War and Classic are never recommended by the keyword classifier. */
  lemma MoodGenresNeverExcited(moodText: string)
    ensures "Action" !in MoodGenres(moodText) && "Science Fiction" !in MoodGenres(moodText)
    ensures "War" !in MoodGenres(moodText) && "Classic" !in MoodGenres(moodText)
  {
    ActionUnlisted();
    ScienceFictionUnlisted();
    WarUnlisted();
    ClassicUnlisted();
    UnlistedNeverAnswered(moodText, "Action");
    UnlistedNeverAnswered(moodText, "Science Fiction");
    UnlistedNeverAnswered(moodText, "War");
    UnlistedNeverAnswered(moodText, "Classic");
  }

  /** The remote classifier's answer, as seen by the front end: either the
      parsed `[genre, score]` pairs, or any failure (network error, non-2xx
      status, malformed body). */
  datatype AiOutcome = AiAnswered(pairs: seq<(string, real)>) | AiFailed

  /** `data.genres.map(item => item[0])`. */
  function GenreNames(pairs: seq<(string, real)>): (r: seq<string>)
    ensures |r| == |pairs| && forall i :: 0 <= i < |pairs| ==> r[i] == pairs[i].0
  {
    if pairs == [] then [] else [pairs[0].0] + GenreNames(pairs[1..])
  }

  /** `getGenresFromAI`: the remote answer's genre names, in order and not
      de-duplicated; on any failure, the keyword classifier's answer. */
  method GetGenresFromAI(moodText: string, outcome: AiOutcome) returns (genres: seq<string>)
    ensures outcome.AiFailed? ==> genres == MoodGenres(moodText)
    ensures outcome.AiAnswered? ==>
      |genres| == |outcome.pairs| && forall i :: 0 <= i < |genres| ==> genres[i] == outcome.pairs[i].0
  {
    match outcome
    case AiAnswered(pairs) =>
      genres := GenreNames(pairs);
    case AiFailed =>
      genres := AnalyzeMood(moodText);
  }
}
