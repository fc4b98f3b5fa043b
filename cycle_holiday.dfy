/**
 The CycleHoliday widget of `src/components/CycleHoliday.tsx`: one state cell
 holding a holiday, two buttons that advance it (alphabetically, or through
 the year) and an emoji display.
 */
module CycleHoliday {

  datatype Holiday = WorldParrotDay | CheeseDay | BestFriendDay | GoFishingDay | DogDay

  /** The string literal the `Holiday` union type uses for each holiday. */
  function Name(h: Holiday): string
  {
    match h
    case WorldParrotDay => "World Parrot Day"
    case CheeseDay => "Cheese Day"
    case BestFriendDay => "Best Friend Day"
    case GoFishingDay => "Go Fishing Day"
    case DogDay => "Dog Day"
  }

  /** The holiday shown first. */
  const InitialHoliday: Holiday := BestFriendDay

  /** The successor the "Advance by Alphabet" button picks. */
  function AlphaNext(h: Holiday): Holiday
  {
    if h == BestFriendDay then CheeseDay
    else if h == CheeseDay then DogDay
    else if h == DogDay then GoFishingDay
    else if h == GoFishingDay then WorldParrotDay
    else BestFriendDay
  }

  /** The successor the "Advance by Year" button picks. */
  function DateNext(h: Holiday): Holiday
  {
    if h == WorldParrotDay then CheeseDay
    else if h == CheeseDay then BestFriendDay
    else if h == BestFriendDay then GoFishingDay
    else if h == GoFishingDay then DogDay
    else WorldParrotDay
  }

  /** getEmoji: one emoji per holiday name, the empty string for anything else. */
  function GetEmoji(name: string): (e: string)
    ensures e == "" <==> forall h: Holiday :: name != Name(h)
    ensures e != "" ==> |e| == 1
  {
    if name == "World Parrot Day" then assert name == Name(WorldParrotDay); "\U{1F99C}"
    else if name == "Cheese Day" then assert name == Name(CheeseDay); "\U{1F9C0}"
    else if name == "Best Friend Day" then assert name == Name(BestFriendDay); "\U{1F9D1}"
    else if name == "Go Fishing Day" then assert name == Name(GoFishingDay); "\U{1F41F}"
    else if name == "Dog Day" then assert name == Name(DogDay); "\U{1F436}"
    else ""
  }

  /** Different holidays show different emoji. */
  lemma EmojiDistinct(g: Holiday, h: Holiday)
    requires g != h
    ensures GetEmoji(Name(g)) != GetEmoji(Name(h))
  {
  }

  /** Strict lexicographic order on strings, comparing code points. JavaScript's `<` compares
      UTF-16 code units; on the ASCII holiday names the two orders agree. */
  predicate Precedes(a: string, b: string)
  {
    (a == [] && b != []) || (a != [] && b != [] && (a[0] < b[0] || (a[0] == b[0] && Precedes(a[1..], b[1..]))))
  }

  /** AlphaNext moves to the holiday whose name comes next alphabetically, and from the
      last name wraps around to the first. */
  lemma AlphaNextIsAlphabetical(h: Holiday)
    ensures h != WorldParrotDay ==>
      && Precedes(Name(h), Name(AlphaNext(h)))
      && forall g: Holiday :: !(Precedes(Name(h), Name(g)) && Precedes(Name(g), Name(AlphaNext(h))))
    ensures h == WorldParrotDay ==>
      && (forall g: Holiday :: g != h ==> Precedes(Name(g), Name(h)))
      && (forall g: Holiday :: g != AlphaNext(h) ==> Precedes(Name(AlphaNext(h)), Name(g)))
  {
    var next := AlphaNext(h);
    forall g: Holiday
      ensures Precedes(Name(h), Name(g)) <==> Name(h)[0] < Name(g)[0]
      ensures Precedes(Name(g), Name(h)) <==> Name(g)[0] < Name(h)[0]
      ensures Precedes(Name(g), Name(next)) <==> Name(g)[0] < Name(next)[0]
      ensures Precedes(Name(next), Name(g)) <==> Name(next)[0] < Name(g)[0]
    {
      NamesOrderedByFirstLetter(h, g);
      NamesOrderedByFirstLetter(g, h);
      NamesOrderedByFirstLetter(g, AlphaNext(h));
      NamesOrderedByFirstLetter(AlphaNext(h), g);
    }
    NamesOrderedByFirstLetter(h, AlphaNext(h));
  }

  /** The five names start with five different letters, so the first letter decides their order. */
  lemma NamesOrderedByFirstLetter(g: Holiday, k: Holiday)
    ensures Precedes(Name(g), Name(k)) <==> Name(g)[0] < Name(k)[0]
  {
    if g == k {
      PrecedesIrreflexive(Name(g));
    } else {
      assert Name(g)[0] != Name(k)[0];
    }
  }

  /** No string precedes itself. */
  lemma {:induction false} PrecedesIrreflexive(a: string)
    ensures !Precedes(a, a)
  {
    if a != [] {
      PrecedesIrreflexive(a[1..]);
    }
  }

  /** Applying a successor function five times. */
  function Iterate5(next: Holiday -> Holiday, h: Holiday): Holiday
  {
    next(next(next(next(next(h)))))
  }

  /** Both buttons walk one cycle through all five holidays: from any holiday, the first
      five steps visit every holiday and the fifth step returns to the start. */
  lemma SingleCycles(h: Holiday)
    ensures {h, AlphaNext(h), AlphaNext(AlphaNext(h)), AlphaNext(AlphaNext(AlphaNext(h))),
             AlphaNext(AlphaNext(AlphaNext(AlphaNext(h))))}
         == {WorldParrotDay, CheeseDay, BestFriendDay, GoFishingDay, DogDay}
    ensures {h, DateNext(h), DateNext(DateNext(h)), DateNext(DateNext(DateNext(h))),
             DateNext(DateNext(DateNext(DateNext(h))))}
         == {WorldParrotDay, CheeseDay, BestFriendDay, GoFishingDay, DogDay}
    ensures Iterate5(AlphaNext, h) == h && Iterate5(DateNext, h) == h
  {
  }

  /** Each successor function is a bijection with no fixed point. */
  lemma SuccessorsArePermutations(g: Holiday, h: Holiday)
    ensures AlphaNext(g) == AlphaNext(h) ==> g == h
    ensures DateNext(g) == DateNext(h) ==> g == h
    ensures exists p: Holiday :: AlphaNext(p) == h
    ensures exists p: Holiday :: DateNext(p) == h
    ensures AlphaNext(h) != h && DateNext(h) != h
  {
    SingleCycles(g);
    SingleCycles(h);
    var alphaPred := AlphaNext(AlphaNext(AlphaNext(AlphaNext(h))));
    var datePred := DateNext(DateNext(DateNext(DateNext(h))));
    assert AlphaNext(alphaPred) == h;
    assert DateNext(datePred) == h;
  }

  /** The widget's state cell. */
  class HolidayCycler {
    var holiday: Holiday

    constructor ()
      ensures holiday == InitialHoliday
    {
      holiday := InitialHoliday;
    }

    /** The "Advance by Alphabet" handler. */
    method AlphaSwap()
      modifies this
      ensures holiday == AlphaNext(old(holiday))
    {
      holiday := AlphaNext(holiday);
    }

    /** The "Advance by Year" handler. */
    method DateSwap()
      modifies this
      ensures holiday == DateNext(old(holiday))
    {
      holiday := DateNext(holiday);
    }

    /** The text after "Holiday: " in the rendering. */
    function Shown(): (e: string)
      reads this
      ensures e != "" && |e| == 1
    {
      GetEmoji(Name(holiday))
    }
  }
}
