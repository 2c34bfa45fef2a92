/** The community leaderboard (src/screens/CommunityScreen.tsx). */
module Community {
  import opened Wrappers
  import opened Data
  import opened Lists
  import Text

  /** One leaderboard entry: a member record plus the current-user flag and the XP shown. */
  datatype Entry = Entry(
    id: string,
    name: string,
    specialization: string,
    photoUrl: Option<string>,
    rating: real,
    city: string,
    isCurrentUser: bool,
    xp: int)

  function Xp(e: Entry): int { e.xp }

  predicate IsCurrentUser(e: Entry) { e.isCurrentUser }

  /** The chip row; the first chip stands for "no selection". */
  const AllChip := "Все"
  const Specializations: seq<string> := [AllChip, "Гастроэнтеролог", "Терапевт", "Эндоскопист"]

  /** The signed-in doctor as a leaderboard entry, named "first last". */
  function CurrentUserEntry(d: Doctor): (e: Entry)
    ensures e.isCurrentUser && e.id == d.id && e.xp == d.xp
    ensures e.name == d.firstName + " " + d.lastName
    ensures e.specialization == d.specialization && e.photoUrl == d.photoUrl
    ensures e.rating == d.rating && e.city == d.city
  {
    Entry(d.id, d.firstName + " " + d.lastName, d.specialization, d.photoUrl, d.rating, d.city, true, d.xp)
  }

  /** The members as entries, member `i` of `n` given the synthetic XP `1000 + (n - i) * 200`. */
  function MemberEntries(members: seq<CommunityMember>): (r: seq<Entry>)
    ensures |r| == |members|
    ensures forall i :: 0 <= i < |r| ==>
      !r[i].isCurrentUser && r[i].id == members[i].id && r[i].name == members[i].name &&
      r[i].specialization == members[i].specialization && r[i].photoUrl == members[i].photoUrl &&
      r[i].rating == members[i].rating && r[i].city == members[i].city &&
      r[i].xp == 1000 + (|members| - i) * 200
    ensures forall i, j :: 0 <= i < j < |r| ==> r[i].xp > r[j].xp
    ensures forall i :: 0 <= i < |r| ==> r[i].xp >= 1200
  {
    seq(|members|, i requires 0 <= i < |members| =>
      var m := members[i];
      Entry(m.id, m.name, m.specialization, m.photoUrl, m.rating, m.city, false, 1000 + (|members| - i) * 200))
  }

  /**
   * Stable insertion of `x` in front of a list ranked by descending XP: it goes
   * before the first entry with no more XP than itself.
   */
  function Insert(x: Entry, s: seq<Entry>): (r: seq<Entry>)
    ensures |r| == |s| + 1
    ensures multiset(r) == multiset(s) + multiset{x}
  {
    if s == [] || s[0].xp <= x.xp then [x] + s
    else
      assert s == [s[0]] + s[1..];
      [s[0]] + Insert(x, s[1..])
  }

  lemma {:induction false} InsertRanked(x: Entry, s: seq<Entry>)
    requires NonIncreasing(s, Xp)
    ensures NonIncreasing(Insert(x, s), Xp)
  {
    if s != [] && s[0].xp > x.xp {
      var tail := Insert(x, s[1..]);
      TailRanked(s);
      InsertRanked(x, s[1..]);
      HeadDominates(s);
      InsertMembers(x, s[1..]);
      assert forall y :: y in s[1..] ==> y in s;
      ConsRanked(s[0], tail);
    }
  }

  lemma {:induction false} InsertMembers(x: Entry, s: seq<Entry>)
    ensures forall y :: y in Insert(x, s) ==> y == x || y in s
  {
    if s != [] && s[0].xp > x.xp {
      InsertMembers(x, s[1..]);
      assert forall y :: y in s[1..] ==> y in s;
    }
  }

  lemma TailRanked(s: seq<Entry>)
    requires s != [] && NonIncreasing(s, Xp)
    ensures NonIncreasing(s[1..], Xp)
  {
    forall i, j | 0 <= i < j < |s[1..]| ensures Xp(s[1..][i]) >= Xp(s[1..][j]) {
      assert s[1..][i] == s[i + 1] && s[1..][j] == s[j + 1];
    }
  }

  lemma HeadDominates(s: seq<Entry>)
    requires s != [] && NonIncreasing(s, Xp)
    ensures forall y :: y in s ==> y.xp <= s[0].xp
  {
    forall y | y in s ensures y.xp <= s[0].xp {
      var j :| 0 <= j < |s| && s[j] == y;
      assert Xp(s[0]) >= Xp(s[j]);
    }
  }

  lemma ConsRanked(h: Entry, t: seq<Entry>)
    requires NonIncreasing(t, Xp)
    requires forall y :: y in t ==> y.xp <= h.xp
    ensures NonIncreasing([h] + t, Xp)
  {
    var s := [h] + t;
    forall i, j | 0 <= i < j < |s| ensures Xp(s[i]) >= Xp(s[j]) {
      assert s[j] == t[j - 1];
      if i > 0 {
        assert s[i] == t[i - 1];
      }
    }
  }

  /** Inserting adds `x`'s own share to every count taken by a filter. */
  lemma {:induction false} InsertCounts(x: Entry, s: seq<Entry>, p: Entry -> bool)
    ensures |Filter(Insert(x, s), p)| == |Filter([x], p)| + |Filter(s, p)|
  {
    if s == [] || s[0].xp <= x.xp {
      FilterAppend([x], s, p);
    } else {
      InsertCounts(x, s[1..], p);
      FilterAppend([s[0]], Insert(x, s[1..]), p);
      FilterAppend([s[0]], s[1..], p);
      assert s == [s[0]] + s[1..];
    }
  }

  function XpIs(k: int): Entry -> bool {
    (e: Entry) => e.xp == k
  }

  /** Inserting keeps entries of equal XP in their original relative order, `x` first. */
  lemma {:induction false} InsertStable(x: Entry, s: seq<Entry>, k: int)
    ensures Filter(Insert(x, s), XpIs(k)) == Filter([x], XpIs(k)) + Filter(s, XpIs(k))
  {
    var p := XpIs(k);
    if s == [] || s[0].xp <= x.xp {
      FilterAppend([x], s, p);
    } else {
      var t := s[1..];
      InsertStable(x, t, k);
      assert Insert(x, s) == [s[0]] + Insert(x, t);
      FilterAppend([s[0]], Insert(x, t), p);
      FilterAppend([s[0]], t, p);
      assert s == [s[0]] + t;
      FilterSingle(s[0], p);
      FilterSingle(x, p);
      assert Filter([s[0]], p) == [] || Filter([x], p) == [];
    }
  }

  /** `.sort((a, b) => b.xp - a.xp)`: a stable sort by descending XP. */
  function SortByXpDesc(s: seq<Entry>): (r: seq<Entry>)
    ensures |r| == |s|
    ensures multiset(r) == multiset(s)
    ensures NonIncreasing(r, Xp)
  {
    if s == [] then []
    else
      var rest := SortByXpDesc(s[1..]);
      InsertRanked(s[0], rest);
      assert s == [s[0]] + s[1..];
      Insert(s[0], rest)
  }

  /** The sort keeps every filter's count. */
  lemma {:induction false} SortCounts(s: seq<Entry>, p: Entry -> bool)
    ensures |Filter(SortByXpDesc(s), p)| == |Filter(s, p)|
  {
    if s != [] {
      SortCounts(s[1..], p);
      assert SortByXpDesc(s) == Insert(s[0], SortByXpDesc(s[1..]));
      InsertCounts(s[0], SortByXpDesc(s[1..]), p);
      FilterAppend([s[0]], s[1..], p);
      assert s == [s[0]] + s[1..];
    }
  }

  /** The sort is stable: entries with equal XP keep their input order. */
  lemma {:induction false} SortStable(s: seq<Entry>, k: int)
    ensures Filter(SortByXpDesc(s), XpIs(k)) == Filter(s, XpIs(k))
  {
    if s != [] {
      var t, p := s[1..], XpIs(k);
      var rest := SortByXpDesc(t);
      SortStable(t, k);
      InsertStable(s[0], rest, k);
      assert SortByXpDesc(s) == Insert(s[0], rest);
      FilterAppend([s[0]], t, p);
      assert s == [s[0]] + t;
    }
  }

  /** `allMembers`: the current user followed by the members, ranked by XP. */
  function AllMembers(d: Doctor, members: seq<CommunityMember>): (r: seq<Entry>)
    ensures multiset(r) == multiset([CurrentUserEntry(d)] + MemberEntries(members))
    ensures NonIncreasing(r, Xp)
  {
    SortByXpDesc([CurrentUserEntry(d)] + MemberEntries(members))
  }

  /** The leaderboard has one entry per member plus one for the user, and exactly one is the user. */
  lemma LeaderboardShape(d: Doctor, members: seq<CommunityMember>)
    ensures |AllMembers(d, members)| == |members| + 1
    ensures |Filter(AllMembers(d, members), IsCurrentUser)| == 1
    ensures CurrentUserEntry(d) in AllMembers(d, members)
  {
    var unsorted := [CurrentUserEntry(d)] + MemberEntries(members);
    SortCounts(unsorted, IsCurrentUser);
    FilterAppend([CurrentUserEntry(d)], MemberEntries(members), IsCurrentUser);
    FilterKeepsNone(MemberEntries(members), IsCurrentUser);
    assert CurrentUserEntry(d) in multiset(unsorted);
  }

  /** The first entry of the leaderboard has the most XP of anyone. */
  lemma TopHasMostXp(d: Doctor, members: seq<CommunityMember>)
    ensures var all := AllMembers(d, members);
            forall e :: e in [CurrentUserEntry(d)] + MemberEntries(members) ==> all[0].xp >= e.xp
  {
    var all := AllMembers(d, members);
    var unsorted := [CurrentUserEntry(d)] + MemberEntries(members);
    assert unsorted[0] in multiset(all);
    forall e | e in unsorted ensures all[0].xp >= e.xp {
      assert e in multiset(all);
      var j :| 0 <= j < |all| && all[j] == e;
      assert Xp(all[0]) >= Xp(all[j]);
    }
  }

  /** The search box: the lower-cased query occurs in the lower-cased name or specialisation. */
  predicate MatchesSearch(e: Entry, query: string) {
    Text.Contains(Text.ToLower(e.name), Text.ToLower(query)) ||
    Text.Contains(Text.ToLower(e.specialization), Text.ToLower(query))
  }

  /** An empty query passes every entry. */
  lemma EmptyQueryPassesAll(e: Entry)
    ensures MatchesSearch(e, "")
  {
    assert Text.ToLower("") == [];
  }

  /** The chip filter: no selection (null or empty) or the "all" chip passes everyone. */
  predicate MatchesSpecialization(e: Entry, selected: Option<string>) {
    selected.None? || selected.value == "" || selected.value == AllChip || e.specialization == selected.value
  }

  /** Tapping a chip stores its name, except the "all" chip which clears the selection. */
  function TapSpecialization(chip: string): (r: Option<string>)
    ensures r.None? <==> chip == AllChip
    ensures r.Some? ==> r.value == chip
  {
    if chip == AllChip then None else Some(chip)
  }

  /** A chip is drawn selected when it is the stored one, or it is "all" and nothing is stored. */
  predicate ChipHighlighted(chip: string, selected: Option<string>) {
    ((selected.None? || selected.value == "") && chip == AllChip) || selected == Some(chip)
  }

  /** After tapping a chip, that chip and no other is drawn selected. */
  lemma TappedChipAlone(i: nat, j: nat)
    requires i < |Specializations| && j < |Specializations|
    ensures ChipHighlighted(Specializations[j], TapSpecialization(Specializations[i])) <==> i == j
  {
  }

  predicate Passes(e: Entry, query: string, selected: Option<string>) {
    MatchesSearch(e, query) && MatchesSpecialization(e, selected)
  }

  function PassesBy(query: string, selected: Option<string>): Entry -> bool {
    (e: Entry) => Passes(e, query, selected)
  }

  /** `filteredMembers`: the ranked entries passing both filters, still in rank order. */
  function FilteredMembers(all: seq<Entry>, query: string, selected: Option<string>): (r: seq<Entry>)
    ensures SubseqOf(r, all)
    ensures forall e :: e in r <==> e in all && Passes(e, query, selected)
    ensures NonIncreasing(all, Xp) ==> NonIncreasing(r, Xp)
  {
    var r := Filter(all, PassesBy(query, selected));
    FilterIsSubseq(all, PassesBy(query, selected));
    if NonIncreasing(all, Xp) then
      SubseqKeepsOrder(r, all, Xp);
      r
    else r
  }

  /** With an empty query and no chip selected the whole leaderboard is listed. */
  lemma NoFilterListsAll(all: seq<Entry>)
    ensures FilteredMembers(all, "", None) == all
  {
    forall i | 0 <= i < |all| ensures PassesBy("", None)(all[i]) {
      EmptyQueryPassesAll(all[i]);
    }
    FilterKeepsAll(all, PassesBy("", None));
  }

  /** One row of the list below the podium. */
  datatype Row = Row(entry: Entry, rank: nat, highlighted: bool, youBadge: bool, messageButton: bool)

  /** The list rows: rank is the position in the filtered list plus one, the first three highlighted. */
  function ListRows(filtered: seq<Entry>): (rows: seq<Row>)
    ensures |rows| == |filtered|
    ensures forall i :: 0 <= i < |rows| ==>
      rows[i].entry == filtered[i] && rows[i].rank == i + 1 && (rows[i].highlighted <==> i < 3)
    ensures forall i :: 0 <= i < |rows| ==>
      rows[i].youBadge == filtered[i].isCurrentUser && rows[i].messageButton == !filtered[i].isCurrentUser
  {
    seq(|filtered|, i requires 0 <= i < |filtered| =>
      Row(filtered[i], i + 1, i < 3, filtered[i].isCurrentUser, !filtered[i].isCurrentUser))
  }

  predicate RowHighlighted(r: Row) { r.highlighted }

  /** Exactly `min(3, n)` rows are highlighted. */
  lemma HighlightedRows(filtered: seq<Entry>)
    ensures |Filter(ListRows(filtered), RowHighlighted)| == if |filtered| < 3 then |filtered| else 3
  {
    var rows := ListRows(filtered);
    var m := if |rows| < 3 then |rows| else 3;
    assert rows == rows[..m] + rows[m..];
    FilterAppend(rows[..m], rows[m..], RowHighlighted);
    FilterKeepsAll(rows[..m], RowHighlighted);
    FilterKeepsNone(rows[m..], RowHighlighted);
  }

  /** One podium place: the entry at that place of the unfiltered board, if the board is long enough. */
  datatype PodiumPlace = PodiumPlace(entry: Option<Entry>, shownName: Option<string>)

  /** The podium shows places 1 to 3 of the whole board, each under its first name. */
  function Podium(all: seq<Entry>): (p: seq<PodiumPlace>)
    ensures |p| == 3
    ensures forall k :: 0 <= k < 3 ==> (p[k].entry.Some? <==> k < |all|)
    ensures forall k :: 0 <= k < 3 && k < |all| ==>
      p[k].entry == Some(all[k]) && p[k].shownName == Some(Text.Split(all[k].name)[0])
  {
    seq(3, k requires 0 <= k < 3 =>
      if k < |all| then PodiumPlace(Some(all[k]), Some(Text.Split(all[k].name)[0]))
      else PodiumPlace(None, None))
  }

  /** The whole community view: podium from the ranked board, rows from the filtered one. */
  datatype View = View(podium: seq<PodiumPlace>, rows: seq<Row>)

  function Render(d: Doctor, members: seq<CommunityMember>, query: string, selected: Option<string>): (v: View)
    ensures v.podium == Podium(AllMembers(d, members))
    ensures v.rows == ListRows(FilteredMembers(AllMembers(d, members), query, selected))
  {
    var all := AllMembers(d, members);
    View(Podium(all), ListRows(FilteredMembers(all, query, selected)))
  }

  /** Searching and chip selection never move the podium. */
  lemma PodiumIgnoresFilters(d: Doctor, members: seq<CommunityMember>, q1: string, s1: Option<string>, q2: string, s2: Option<string>)
    ensures Render(d, members, q1, s1).podium == Render(d, members, q2, s2).podium
  {
  }
}
