/** The listings the dashboard is mounted with, and the pipeline on a few
    concrete inputs. */
module SeedData {
  import opened Wrappers
  import opened EcmaScript
  import opened Sequences
  import opened Listings

  /** The address of a stock photograph, cropped to 400 by 300 pixels. */
  function Unsplash(photo: string): string {
    "https://images.unsplash.com/photo-" + photo + "?w=400&h=300&fit=crop"
  }

  function SeedListings(): seq<Property> {
    [ Property(1, "Apartamento Moderno Centro", 350000, "Centro, Asunci\U{00F3}n", -25.2637, -57.5759,
               2, 2, 85, "apartment",
               Some(Unsplash("1560448204-e02f11c3d0e2")), false),
      Property(2, "Casa Familiar con Jard\U{00ED}n", 450000, "Lambar\U{00E9}, Paraguay", -25.3426, -57.6089,
               4, 3, 250, "house",
               Some(Unsplash("1568605114967-8130f3a36994")), true),
      Property(3, "Departamento Vista al R\U{00ED}o", 280000, "San Lorenzo, Paraguay", -25.3400, -57.5089,
               3, 2, 110, "apartment",
               Some(Unsplash("1545324418-cc1a3fa10c00")), false),
      Property(4, "\U{00C1}tico con Terraza", 520000, "Villa Morra, Asunci\U{00F3}n", -25.2850, -57.5900,
               3, 3, 180, "apartment",
               Some(Unsplash("1512917774080-9991f1c4c750")), false) ]
  }

  /** Every listing of the seed has its own id. */
  lemma SeedIdsDistinct()
    ensures forall i, j :: 0 <= i < j < |SeedListings()| ==> SeedListings()[i].id != SeedListings()[j].id
  {
  }

  /** The two listings of the worked examples: an apartment with two
      bedrooms and a house with four. */
  function PairOfListings(): seq<Property> {
    [ SeedListings()[0], SeedListings()[1] ]
  }

  /** Choosing the category "apartment" keeps exactly the apartment. */
  lemma CategoryExample()
    ensures Selected(PairOfListings(), DefaultFilters.(propertyType := "apartment"), "") == [PairOfListings()[0]]
  {
    var s := PairOfListings();
    var f := DefaultFilters.(propertyType := "apartment");
    assert Matches(s[0], f, "") && !Matches(s[1], f, "");
    assert s[1..] == [s[1]] && s[1..][1..] == [];
  }

  /** Choosing at least 3 bedrooms, as the chip labelled 3 does, keeps
      exactly the house. */
  lemma BedroomsExample()
    ensures Selected(PairOfListings(), DefaultFilters.(minBedrooms := IntToString(3)), "") == [PairOfListings()[1]]
  {
    var s := PairOfListings();
    var f := DefaultFilters.(minBedrooms := IntToString(3));
    ParseIntRoundTrip(3);
    assert !Matches(s[0], f, "") && Matches(s[1], f, "");
    assert s[1..] == [s[1]] && s[1..][1..] == [];
  }

  /** Searching for "Lambar\U{00E9}" keeps exactly the listing located there. */
  lemma SearchExample()
    ensures Selected(SeedListings(), DefaultFilters, "Lambar\U{00E9}") == [SeedListings()[1]]
  {
    SeedMissesQuery(0);
    LambareMentioned();
    SeedMissesQuery(2);
    SeedMissesQuery(3);
    OnlySecondMentions(SeedListings(), "Lambar\U{00E9}");
  }

  /** The first, third and fourth listings do not mention the query. */
  lemma SeedMissesQuery(k: nat)
    requires k in {0, 2, 3}
    ensures !MentionsQuery(SeedListings()[k], "Lambar\U{00E9}")
  {
    if k == 0 { SeedUnaccented0(); } else if k == 2 { SeedUnaccented2(); } else { SeedUnaccented3(); }
    UnaccentedMissesQuery(SeedListings()[k]);
  }

  /** A query that only the second of four listings mentions, with every
      other filter at its default, keeps that listing alone. */
  lemma OnlySecondMentions(s: seq<Property>, q: string)
    requires |s| == 4 && q != ""
    requires !MentionsQuery(s[0], q) && MentionsQuery(s[1], q) && !MentionsQuery(s[2], q) && !MentionsQuery(s[3], q)
    ensures Selected(s, DefaultFilters, q) == [s[1]]
  {
    FilterKeepsSecondOfFour(s, (p: Property) => Matches(p, DefaultFilters, q));
  }

  /** The title and location of the first listing hold no 'e' with an acute
      accent, in either case; nor do those of the third and fourth below.
      One lemma per listing keeps each literal in a proof of its own. */
  lemma SeedUnaccented0()
    ensures Unaccented(SeedListings()[0].title) && Unaccented(SeedListings()[0].location)
  {
    var p := SeedListings()[0];
    assert p.title == "Apartamento Moderno Centro" && p.location == "Centro, Asunci\U{00F3}n";
  }

  lemma SeedUnaccented2()
    ensures Unaccented(SeedListings()[2].title) && Unaccented(SeedListings()[2].location)
  {
    var p := SeedListings()[2];
    assert p.title == "Departamento Vista al R\U{00ED}o" && p.location == "San Lorenzo, Paraguay";
  }

  lemma SeedUnaccented3()
    ensures Unaccented(SeedListings()[3].title) && Unaccented(SeedListings()[3].location)
  {
    var p := SeedListings()[3];
    assert p.title == "\U{00C1}tico con Terraza" && p.location == "Villa Morra, Asunci\U{00F3}n";
  }

  lemma FilterKeepsSecondOfFour<T>(s: seq<T>, keep: T -> bool)
    requires |s| == 4 && !keep(s[0]) && keep(s[1]) && !keep(s[2]) && !keep(s[3])
    ensures Filter(s, keep) == [s[1]]
  {
    assert s[1..][1..] == s[2..] && s[2..][1..] == s[3..] && s[3..][1..] == [];
    assert Filter(s[3..], keep) == [];
    assert Filter(s[2..], keep) == [];
    assert Filter(s[1..], keep) == [s[1]];
  }

  lemma LambareMentioned()
    ensures MentionsQuery(SeedListings()[1], "Lambar\U{00E9}")
  {
    var loc := ToLowerCase(SeedListings()[1].location);
    var lq := ToLowerCase("Lambar\U{00E9}");
    assert lq == "lambar\U{00E9}";
    assert loc[..|lq|] == lq;
  }

  /** Neither 'é' nor 'É' occurs in `t`. */
  predicate Unaccented(t: string) {
    forall i :: 0 <= i < |t| ==> t[i] != '\U{00E9}' && t[i] != '\U{00C9}'
  }

  /** A listing whose title and location hold no 'é' or 'É' cannot mention
      the query, whose lower case holds an 'é'. */
  lemma UnaccentedMissesQuery(p: Property)
    requires Unaccented(p.title) && Unaccented(p.location)
    ensures !MentionsQuery(p, "Lambar\U{00E9}")
  {
    var lq := ToLowerCase("Lambar\U{00E9}");
    assert lq[6] == '\U{00E9}';
    LacksAccent(p.title);
    LacksAccent(p.location);
    MissingCharacterExcludes(ToLowerCase(p.title), lq, '\U{00E9}');
    MissingCharacterExcludes(ToLowerCase(p.location), lq, '\U{00E9}');
  }

  /** An unaccented string lower-cases to one without 'é'. */
  lemma LacksAccent(t: string)
    requires Unaccented(t)
    ensures '\U{00E9}' !in ToLowerCase(t)
  {
    forall i | 0 <= i < |t|
      ensures ToLowerCase(t)[i] != '\U{00E9}'
    {
      if ToLowerCase(t)[i] == '\U{00E9}' {
        LowerCharPreimage(t[i], '\U{00E9}');
      }
    }
  }
}
