/** The member list of `MembersList.tsx`: the search and level filter, the
    local removal after a delete, and the colour of the PFI badge. */
module Members {
  import opened Seqs
  import opened Text
  import opened Records

  /** The search and level conditions of `filterJovenes`. */
  predicate MemberKept(j: Joven, searchTerm: string, levelFilter: string) {
    && (searchTerm != "" ==>
          Contains(Lower(j.nombre), Lower(searchTerm)) || Contains(Lower(j.felipeLider), Lower(searchTerm)))
    && (levelFilter != "todos" ==> Lower(j.nivelRutaPfi) == Lower(levelFilter))
  }

  function SearchMatches(term: string): Joven -> bool {
    (j: Joven) => Contains(Lower(j.nombre), Lower(term)) || Contains(Lower(j.felipeLider), Lower(term))
  }

  function LevelMatches(level: string): Joven -> bool {
    (j: Joven) => Lower(j.nivelRutaPfi) == Lower(level)
  }

  function IdIsNot(id: string): Joven -> bool {
    (j: Joven) => j.id != id
  }

  /** The level filter ignores case on both sides. */
  lemma LevelFilterIgnoresCase(j: Joven, level: string)
    ensures LevelMatches(level)(j) == LevelMatches(Lower(level))(j)
    ensures LevelMatches(level)(j) == LevelMatches(level)(j.(nivelRutaPfi := Lower(j.nivelRutaPfi)))
  {
    LowerIdempotent(level);
    LowerIdempotent(j.nivelRutaPfi);
  }

  /** The colour class of the PFI badge. */
  datatype Badge = Green | Yellow | Blue

  /** Green for the seminary, yellow for a school, blue otherwise. */
  function BadgeOf(level: string): (b: Badge)
    ensures b == Green <==> Lower(level) == "seminario biblico"
    ensures b == Yellow <==> Lower(level) != "seminario biblico" && Contains(Lower(level), "escuela")
    ensures b == Blue <==> Lower(level) != "seminario biblico" && !Contains(Lower(level), "escuela")
  {
    if Lower(level) == "seminario biblico" then Green
    else if Contains(Lower(level), "escuela") then Yellow
    else Blue
  }

  /** The badge depends on the level only up to case. */
  lemma BadgeIgnoresCase(level: string)
    ensures BadgeOf(Lower(level)) == BadgeOf(level)
  {
    LowerIdempotent(level);
  }

  /** The state of the member list. */
  class MembersList {
    var jovenes: seq<Joven>
    var filteredJovenes: seq<Joven>
    var searchTerm: string
    var levelFilter: string

    constructor ()
      ensures jovenes == [] && filteredJovenes == [] && searchTerm == "" && levelFilter == "todos"
    {
      jovenes := [];
      filteredJovenes := [];
      searchTerm := "";
      levelFilter := "todos";
    }

    /** `loadJovenes`, given the rows the query returned. */
    method LoadJovenes(data: seq<Joven>)
      modifies this`jovenes
      ensures jovenes == data
    {
      jovenes := data;
    }

    /** `filterJovenes`: the search step, then the level step. The result keeps
        the roster's order, holds exactly the members both conditions keep, and
        is the whole roster with an empty term and 'todos'. */
    method FilterJovenes()
      modifies this`filteredJovenes
      ensures IsSubseq(filteredJovenes, jovenes)
      ensures forall j :: j in filteredJovenes <==> j in jovenes && MemberKept(j, searchTerm, levelFilter)
      ensures forall j :: multiset(filteredJovenes)[j] == if MemberKept(j, searchTerm, levelFilter) then multiset(jovenes)[j] else 0
      ensures searchTerm == "" && levelFilter == "todos" ==> filteredJovenes == jovenes
    {
      var filtered := jovenes;
      SubseqRefl(jovenes);
      if searchTerm != "" {
        var next := Filter(filtered, SearchMatches(searchTerm));
        FilterMultiset(filtered, SearchMatches(searchTerm));
        SubseqTrans(next, filtered, jovenes);
        filtered := next;
      }
      if levelFilter != "todos" {
        var next := Filter(filtered, LevelMatches(levelFilter));
        FilterMultiset(filtered, LevelMatches(levelFilter));
        SubseqTrans(next, filtered, jovenes);
        filtered := next;
      }
      filteredJovenes := filtered;
    }

    /** `deleteJoven`: after the user confirms and the delete succeeds, every
        entry with that id leaves the list and the rest keep their order;
        otherwise nothing changes. */
    method DeleteJoven(id: string, confirmed: bool, deleteSucceeded: bool)
      modifies this`jovenes
      ensures confirmed && deleteSucceeded ==> jovenes == Filter(old(jovenes), IdIsNot(id))
      ensures !(confirmed && deleteSucceeded) ==> jovenes == old(jovenes)
      ensures forall j :: j in jovenes <==> j in old(jovenes) && (confirmed && deleteSucceeded ==> j.id != id)
    {
      if !confirmed {
        return;
      }
      if deleteSucceeded {
        jovenes := Filter(jovenes, IdIsNot(id));
      }
    }
  }
}
