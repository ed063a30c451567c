/** First-match linear search, the policy shared by `Array.prototype.find`
    in the edge resolution and by the early-returning scan of the click
    handler. */
module Search {
  import opened Options

  /** `k` is the position of the first element of `s` satisfying `p`. */
  ghost predicate IsFirst<T>(s: seq<T>, p: T -> bool, k: int)
  {
    && 0 <= k < |s|
    && p(s[k])
    && forall m :: 0 <= m < k ==> !p(s[m])
  }

  /** Scans `s` from the front and returns the index of the first element
      satisfying `p`, or None when no element does. */
  function First<T>(s: seq<T>, p: T -> bool): (r: Option<nat>)
    ensures r.Some? ==> IsFirst(s, p, r.value)
    ensures r.None? <==> forall k :: 0 <= k < |s| ==> !p(s[k])
  {
    if |s| == 0 then None
    else if p(s[0]) then Some(0)
    else match First(s[1..], p)
      case None => None
      case Some(k) => Some(k + 1)
  }

  /** The first match is unique: any index with the first-match property
      is the one `First` returns. */
  lemma FirstIsUnique<T>(s: seq<T>, p: T -> bool, k: int)
    requires IsFirst(s, p, k)
    ensures First(s, p) == Some(k)
  {
  }

  /** Elements appended after the scanned prefix never change a hit in the
      prefix; when the prefix holds no match, the result is the suffix's
      hit shifted by the prefix length. */
  lemma {:induction false} FirstAppend<T>(a: seq<T>, b: seq<T>, p: T -> bool)
    ensures First(a + b, p) ==
      match First(a, p)
      case Some(k) => Some(k)
      case None =>
        match First(b, p)
        case Some(k) => Some(|a| + k)
        case None => None
  {
    var ab := a + b;
    match First(a, p)
    case Some(k) =>
      assert IsFirst(ab, p, k) by {
        forall m | 0 <= m < k ensures !p(ab[m]) {
          assert ab[m] == a[m];
        }
        assert ab[k] == a[k];
      }
      FirstIsUnique(ab, p, k);
    case None =>
      match First(b, p)
      case Some(k) =>
        assert IsFirst(ab, p, |a| + k) by {
          forall m | 0 <= m < |a| + k ensures !p(ab[m]) {
            if m < |a| {
              assert ab[m] == a[m];
            } else {
              assert ab[m] == b[m - |a|];
            }
          }
          assert ab[|a| + k] == b[k];
        }
        FirstIsUnique(ab, p, |a| + k);
      case None =>
        forall m | 0 <= m < |ab| ensures !p(ab[m]) {
          if m < |a| {
            assert ab[m] == a[m];
          } else {
            assert ab[m] == b[m - |a|];
          }
        }
  }
}
