/** The resizer window's list bookkeeping: the display list filtered from
    the resizer's agents by name, and its pages of 48 textures. */
module ResizerWindow {
  import opened Wrappers
  import Grid
  import opened Text
  import opened Textures
  import opened ResizeAgents
  import opened TextureResizer

  /** The number of pages of `size` entries `count` entries fill: the
      source's count / size, plus one for a partial last page. */
  function PageCount(count: nat, size: nat): nat
    requires size > 0
  {
    count / size + if count % size > 0 then 1 else 0
  }

  /** The pages cover the entries with less than one page to spare: the
      page count is count / size rounded up. */
  lemma PageCountCovers(count: nat, size: nat)
    requires size > 0
    ensures (PageCount(count, size) - 1) * size < count <= PageCount(count, size) * size
  {
    var q, r := count / size, count % size;
    assert count == q * size + r && 0 <= r < size;
    if r > 0 {
      assert PageCount(count, size) * size == q * size + size;
    } else {
      assert PageCount(count, size) * size == q * size;
    }
  }

  /** The entries whose texture is still loaded, in order. */
  function Loaded(list: seq<TextureResizeAgent>): (r: seq<TextureResizeAgent>)
    reads list
    ensures |r| <= |list|
    decreases |list|
  {
    if |list| == 0 then []
    else
      var last := list[|list| - 1];
      Loaded(list[..|list| - 1]) + if last.value != null then [last] else []
  }

  /** An entry is shown under `filter` when its texture is loaded and the
      lower-cased texture name contains the lower-cased filter. */
  predicate Shown(a: TextureResizeAgent, filter: string)
    reads a
  {
    a.value != null && Contains(ToLower(a.value.name), ToLower(filter))
  }

  /** The entries shown under `filter`, in order. */
  function Matching(list: seq<TextureResizeAgent>, filter: string): (r: seq<TextureResizeAgent>)
    reads list
    ensures |r| <= |list|
    decreases |list|
  {
    if |list| == 0 then []
    else
      var last := list[|list| - 1];
      Matching(list[..|list| - 1], filter) + if Shown(last, filter) then [last] else []
  }

  lemma LoadedSnoc(list: seq<TextureResizeAgent>, a: TextureResizeAgent)
    ensures Loaded(list + [a]) == Loaded(list) + if a.value != null then [a] else []
  {
    assert (list + [a])[..|list|] == list;
  }

  lemma MatchingSnoc(list: seq<TextureResizeAgent>, a: TextureResizeAgent, filter: string)
    ensures Matching(list + [a], filter) == Matching(list, filter) + if Shown(a, filter) then [a] else []
  {
    assert (list + [a])[..|list|] == list;
  }

  /** The display list holds only entries of the list that are shown under
      the filter, and every shown entry of the list is in it. */
  lemma {:induction false} MatchingMembers(list: seq<TextureResizeAgent>, filter: string, a: TextureResizeAgent)
    ensures a in Matching(list, filter) <==> a in list && Shown(a, filter)
    decreases |list|
  {
    if |list| > 0 {
      var init := list[..|list| - 1];
      MatchingMembers(init, filter, a);
      assert list == init + [list[|list| - 1]];
    }
  }

  /** The resizer keeps exactly the entries whose texture is loaded. */
  lemma {:induction false} LoadedMembers(list: seq<TextureResizeAgent>, a: TextureResizeAgent)
    ensures a in Loaded(list) <==> a in list && a.value != null
    decreases |list|
  {
    if |list| > 0 {
      var init := list[..|list| - 1];
      LoadedMembers(init, a);
      assert list == init + [list[|list| - 1]];
    }
  }

  /** The empty filter shows every loaded entry, so the source's separate
      branch for it agrees with the filtered one. */
  lemma {:induction false} EmptyFilterShowsLoaded(list: seq<TextureResizeAgent>)
    ensures Matching(list, "") == Loaded(list)
    decreases |list|
  {
    if |list| > 0 {
      var last := list[|list| - 1];
      EmptyFilterShowsLoaded(list[..|list| - 1]);
      if last.value != null {
        assert OccursAt(ToLower(last.value.name), ToLower(""), 0);
      }
    }
  }

  /** The position of the first occurrence of x. */
  function FirstIndex<T(==)>(s: seq<T>, x: T): (k: nat)
    requires x in s
    ensures k < |s| && s[k] == x && x !in s[..k]
  {
    if s[0] == x then 0
    else
      var k := FirstIndex(s[1..], x) + 1;
      assert s[..k] == [s[0]] + s[1..][..k - 1];
      k
  }

  /** List.Remove: drop the first occurrence of x, if any, keeping the
      order of the rest. */
  function RemoveFirst<T(==)>(s: seq<T>, x: T): (r: seq<T>)
    ensures x !in s ==> r == s
    ensures x in s ==> |r| == |s| - 1 && multiset(r) == multiset(s) - multiset{x}
    ensures x in s ==> exists k :: 0 <= k < |s| && s[k] == x && x !in s[..k] && r == s[..k] + s[k + 1..]
  {
    if x in s then
      var k := FirstIndex(s, x);
      assert s == s[..k] + [x] + s[k + 1..];
      s[..k] + s[k + 1..]
    else s
  }

  /** The page after ResetPage, as the source computes it: 0 when asked to
      reset, otherwise the last page when the current one is past the end.
      With no pages that is page -1. */
  function ResetPageAsWritten(current: int, total: nat, isResetCurrent: bool): int {
    if isResetCurrent then 0
    else if current >= total then total - 1
    else current
  }

  /** The list index of slot (i, j) of a page: the source's
      currentPage * textureCount + i + j. */
  function DisplayIndex(page: int, textureCount: nat, i: nat, j: nat): int {
    page * textureCount + i + j
  }

  /** Removing the last displayed entry leaves page -1, and the first
      slot's index, -48, passes the guard `index < Count` (Count is 0), so
      the window would read the display list at -48. */
  lemma EmptyListGivesNegativeIndex()
    ensures ResetPageAsWritten(0, PageCount(0, 48), false) == -1
    ensures var index := DisplayIndex(ResetPageAsWritten(0, PageCount(0, 48), false), 48, 0, 0);
            index == -48 && index < 0
  {
  }

  /** The page after ResetPage as intended: never below 0, and an existing
      page whenever there is one. */
  function ResetPageClamped(current: int, total: nat, isResetCurrent: bool): (page: int)
    ensures 0 <= current ==> 0 <= page && (total > 0 ==> page < total)
    ensures total > 0 ==> page == ResetPageAsWritten(current, total, isResetCurrent)
  {
    if isResetCurrent then 0
    else if current >= total then (if total > 0 then total - 1 else 0)
    else current
  }

  /** On a valid page every slot of the page indexes the display list at 0
      or above, and the slots of page p are exactly the indices from
      p * size up to (p + 1) * size; every entry is on some page. */
  lemma DisplayIndexInRange(page: int, count: nat, size: nat, i: nat, j: nat)
    requires size > 0 && 0 <= page && (PageCount(count, size) > 0 ==> page < PageCount(count, size))
    requires i + j < size
    ensures 0 <= DisplayIndex(page, size, i, j)
    ensures page * size <= DisplayIndex(page, size, i, j) < (page + 1) * size
  {
  }

  lemma EveryEntryOnAPage(count: nat, size: nat, k: nat)
    requires size > 0 && k < count
    ensures k / size < PageCount(count, size)
    ensures DisplayIndex(k / size, size, 0, k % size) == k
  {
    var q, pages := k / size, PageCount(count, size);
    assert q * size <= k by { assert k == q * size + k % size; }
    PageCountCovers(count, size);
    if pages <= q {
      Grid.MulMonotone(pages, q, size);
      assert false;
    }
  }

  /** An entry whose texture is gone: RemoveAt(i) drops it, and the entries
      before i are still the loaded prefix while those from i on are the
      rest of the original list. */
  lemma DropStep(list: seq<TextureResizeAgent>, master: seq<TextureResizeAgent>, i: nat, c: nat)
    requires c < |list| && i < |master|
    requires master[..i] == Loaded(list[..c]) && master[i..] == list[c..]
    requires master[i].value == null
    ensures (master[..i] + master[i + 1..])[..i] == Loaded(list[..c + 1])
    ensures (master[..i] + master[i + 1..])[i..] == list[c + 1..]
  {
    var r := master[..i] + master[i + 1..];
    assert master[i] == list[c] by { assert master[i..][0] == list[c..][0]; }
    assert list[..c + 1] == list[..c] + [list[c]];
    LoadedSnoc(list[..c], list[c]);
    assert r[..i] == master[..i] by { forall k | 0 <= k < i ensures r[k] == master[k] { } }
    assert r[i..] == master[i + 1..] by { forall k | i <= k < |r| ensures r[k] == master[k + 1] { } }
    assert master[i + 1..] == master[i..][1..];
  }

  /** An entry whose texture is loaded: stepping past it extends the loaded
      prefix by that entry. */
  lemma KeepStep(list: seq<TextureResizeAgent>, master: seq<TextureResizeAgent>, i: nat, c: nat)
    requires c < |list| && i < |master|
    requires master[..i] == Loaded(list[..c]) && master[i..] == list[c..]
    requires master[i].value != null
    ensures master[..i + 1] == Loaded(list[..c + 1])
    ensures master[i + 1..] == list[c + 1..]
  {
    assert master[i] == list[c] by { assert master[i..][0] == list[c..][0]; }
    assert list[..c + 1] == list[..c] + [list[c]];
    LoadedSnoc(list[..c], list[c]);
    assert master[..i + 1] == master[..i] + [master[i]];
    assert master[i + 1..] == master[i..][1..];
  }

  /** One more entry of the original list seen: the shown prefix grows by
      that entry exactly when it is shown. */
  lemma MatchingStep(list: seq<TextureResizeAgent>, c: nat, filter: string)
    requires c < |list|
    ensures Matching(list[..c + 1], filter) == Matching(list[..c], filter) + if Shown(list[c], filter) then [list[c]] else []
  {
    assert list[..c + 1] == list[..c] + [list[c]];
    MatchingSnoc(list[..c], list[c], filter);
  }

  /** The source's test for a loaded entry: the empty filter, or the
      lower-cased name containing the lower-cased filter. */
  lemma ShownTest(a: TextureResizeAgent, nameFilter: string)
    requires a.value != null
    ensures Shown(a, nameFilter) <==>
              nameFilter == "" || Contains(ToLower(a.value.name), ToLower(nameFilter))
  {
    if nameFilter == "" {
      assert OccursAt(ToLower(a.value.name), ToLower(nameFilter), 0);
    }
  }

  /** The two passes of ResetDisplayAgents over the resizer's list: an
      entry whose texture is gone is deleted from the list (RemoveAt(i),
      then i-- so the next entry is not skipped), every other entry is kept
      and, when the filter is empty or the lower-cased name contains the
      lower-cased filter, added to the display list. */
  method FilterAgents(list: seq<TextureResizeAgent>, nameFilter: string)
    returns (kept: seq<TextureResizeAgent>, shown: seq<TextureResizeAgent>)
    ensures kept == Loaded(list)
    ensures shown == Matching(list, nameFilter)
  {
    var master := list;
    ghost var consumed := 0;
    shown := [];
    var filter := ToLower(nameFilter);
    var i := 0;
    while i < |master|
      invariant 0 <= consumed <= |list| && 0 <= i <= |master|
      invariant master[..i] == Loaded(list[..consumed])
      invariant master[i..] == list[consumed..]
      invariant shown == Matching(list[..consumed], nameFilter)
      decreases |list| - consumed
    {
      var agent := master[i];
      assert agent == list[consumed] by { assert master[i..][0] == list[consumed..][0]; }
      MatchingStep(list, consumed, nameFilter);
      if agent.value == null {
        // RemoveAt(i); i--; and the loop's i++ leave i where it was.
        DropStep(list, master, i, consumed);
        master := master[..i] + master[i + 1..];
      } else {
        ShownTest(agent, nameFilter);
        if nameFilter == "" {
          shown := shown + [agent];
        } else if Contains(ToLower(agent.value.name), filter) {
          shown := shown + [agent];
        }
        KeepStep(list, master, i, consumed);
        i := i + 1;
      }
      consumed := consumed + 1;
    }
    assert list[..consumed] == list by { assert master[i..] == []; }
    assert master[..i] == master;
    kept := master;
  }

  class ResizerWindow {
    /** Textures per page. */
    const textureCount: nat
    const resizer: TextureResizer
    var agents: seq<TextureResizeAgent>
    var currentPage: int
    var totalPage: nat
    var nameFilter: string

    /** The pages are consistent with the display list: the page count
        covers it and the current page is one of them (page 0 when there
        are none). */
    ghost predicate Paged()
      reads this
    {
      textureCount > 0 && totalPage == PageCount(|agents|, textureCount) &&
      0 <= currentPage && (totalPage > 0 ==> currentPage < totalPage)
    }

    constructor (resizer: TextureResizer)
      ensures Paged() && textureCount == 48 && this.resizer == resizer
      ensures agents == [] && currentPage == 0 && totalPage == 0 && nameFilter == ""
    {
      textureCount := 48;
      this.resizer := resizer;
      agents := [];
      currentPage := 0;
      totalPage := 0;
      nameFilter := "";
    }

    /** Rebuild the display list from the resizer's agents: entries whose
        texture is gone are deleted from the resizer's list, the display
        list is the entries shown under the name filter in their order,
        and paging starts again at page 0. */
    method ResetDisplayAgents()
      requires textureCount > 0 && resizer.agents.Some?
      modifies this`agents, this`currentPage, this`totalPage, resizer`agents
      ensures resizer.agents == Some(old(Loaded(resizer.agents.value)))
      ensures agents == old(Matching(resizer.agents.value, nameFilter))
      ensures Paged() && currentPage == 0
    {
      var kept, shown := FilterAgents(resizer.agents.value, nameFilter);
      resizer.agents := Some(kept);
      agents := shown;
      ResetPage(true);
    }

    /** Recount the pages, then go to page 0 or, without the reset, stay on
        the current page unless it is past the end. The clamp keeps the
        page at 0 or above (ResetPageClamped). */
    method ResetPage(isResetCurrent: bool)
      requires textureCount > 0
      modifies this`currentPage, this`totalPage
      ensures totalPage == PageCount(|agents|, textureCount)
      ensures currentPage == ResetPageClamped(old(currentPage), totalPage, isResetCurrent)
      ensures old(currentPage) >= 0 || isResetCurrent ==> Paged()
    {
      totalPage := |agents| / textureCount + (if |agents| % textureCount > 0 then 1 else 0);
      if isResetCurrent {
        currentPage := 0;
      } else {
        currentPage := if currentPage >= totalPage then (if totalPage > 0 then totalPage - 1 else 0) else currentPage;
      }
    }

    /** Go back one page unless on the first. */
    method PrevPage()
      modifies this`currentPage
      ensures currentPage == if old(currentPage) > 0 then old(currentPage) - 1 else old(currentPage)
      ensures old(Paged()) ==> Paged()
    {
      if currentPage > 0 {
        currentPage := currentPage - 1;
      }
    }

    /** Go forward one page unless on the last. */
    method NextPage()
      modifies this`currentPage
      ensures currentPage == if old(currentPage) < totalPage - 1 then old(currentPage) + 1 else old(currentPage)
      ensures old(Paged()) ==> Paged()
    {
      if currentPage < totalPage - 1 {
        currentPage := currentPage + 1;
      }
    }

    /** Exclude an agent: its first occurrence leaves the display list and
        the resizer's list, and the page is clamped to the new page count. */
    method RemoveAgent(agent: TextureResizeAgent)
      requires textureCount > 0 && resizer.agents.Some?
      modifies this`agents, this`currentPage, this`totalPage, resizer`agents
      ensures agents == RemoveFirst(old(agents), agent)
      ensures resizer.agents == Some(RemoveFirst(old(resizer.agents.value), agent))
      ensures totalPage == PageCount(|agents|, textureCount)
      ensures currentPage == ResetPageClamped(old(currentPage), totalPage, false)
      ensures old(Paged()) ==> Paged()
    {
      agents := RemoveFirst(agents, agent);
      resizer.agents := Some(RemoveFirst(resizer.agents.value, agent));
      ResetPage(false);
    }

    /** The entry shown in slot (i, j) of the current page, if the list
        reaches that far. On consistent pages the index is never negative,
        so the guard `index < Count` is enough. */
    function SlotAgent(i: nat, j: nat): (r: Option<TextureResizeAgent>)
      reads this
      requires Paged() && i + j < textureCount
      ensures r.Some? ==> r.value in agents
      ensures r.Some? <==> DisplayIndex(currentPage, textureCount, i, j) < |agents|
    {
      DisplayIndexInRange(currentPage, |agents|, textureCount, i, j);
      var index := DisplayIndex(currentPage, textureCount, i, j);
      if index < |agents| then Some(agents[index]) else None
    }
  }
}
