/** `SearchPostsByKeyInteractor` (`src/application/post/search_by_key.py`):
    the query is normalised and looked up as a key. */
module SearchByKey {
  import opened Wrappers
  import opened PyStr
  import opened Domain
  import opened Dtos
  import opened PostRepo
  import Keygen

  const SearchLimit: int := 10

  /** `data.query.strip().lower()`.  The length bound rests on `Lower`
      mapping each character to one character; Python's `str.lower` can
      lengthen a string (U+0130 becomes two characters). */
  function NormaliseQuery(query: string): (q: string)
    ensures |q| <= |query|
  {
    Lower(Strip(query))
  }

  /** `SearchPostsByKeyInteractor.__call__`: no lookup for a blank query;
      otherwise the details of at most SearchLimit active posts with that
      key, in the order the repository returns them. */
  function Search(store: PostStore, query: string): (r: seq<PostDetailDto>)
    reads store
    ensures NormaliseQuery(query) == [] ==> r == []
    ensures |r| <= SearchLimit
    ensures NormaliseQuery(query) != [] ==>
              var found := store.SearchPostsByKey(NormaliseQuery(query), SearchLimit).value;
              |r| == |found| && forall i :: 0 <= i < |found| ==> r[i] == PostToDetail(found[i])
    ensures forall d :: d in r ==> d.uniqueKey == NormaliseQuery(query)
  {
    var q := NormaliseQuery(query);
    if q == [] then []
    else
      var found := store.SearchPostsByKey(q, SearchLimit).value;
      assert forall i :: 0 <= i < |found| ==> found[i] in found;
      Map(PostToDetail, found)
  }

  /** Normalising twice changes nothing more. */
  lemma NormaliseIdempotent(query: string)
    ensures NormaliseQuery(NormaliseQuery(query)) == NormaliseQuery(query)
  {
    var s := Strip(query);
    StripEnds(query);
    var l := Lower(s);
    if s != [] {
      LowerKeepsSpace(s[0]);
      LowerKeepsSpace(s[|s| - 1]);
    }
    StripKeeps(l);
    assert Lower(l) == l by {
      forall i | 0 <= i < |l| ensures LowerChar(l[i]) == l[i] {
        LowerCharTwice(s[i]);
      }
    }
  }

  lemma LowerKeepsSpace(c: char)
    ensures IsSpace(LowerChar(c)) == IsSpace(c)
  {
  }

  lemma LowerCharTwice(c: char)
    ensures LowerChar(LowerChar(c)) == LowerChar(c)
  {
  }

  /** Every generated key is found by searching for it, padded or not. */
  lemma GeneratedKeyIsItsQuery(key: string)
    requires Keygen.IsGeneratedKey(key)
    ensures NormaliseQuery(key) == key && key != []
  {
    Keygen.KeyIsItsOwnQuery(key);
  }
}
