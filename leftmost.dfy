/** Leftmost matching: `String.prototype.match` without the global flag reports the match that
  * starts at the smallest position of the subject. */
module Leftmost {

  import opened Wrappers

  /** The result of `f` at the first suffix of `s` (longest first) where it gives one. */
  function First<T>(f: string -> Option<T>, s: string): Option<T>
    decreases |s|
  {
    if f(s).Some? then f(s)
    else if s == [] then None
    else First(f, s[1..])
  }

  /** `First` finds something exactly when `f` succeeds at some position, and then it gives the
    * result at the smallest such position. */
  lemma {:induction false} FirstIsLeftmost<T>(f: string -> Option<T>, s: string)
    ensures First(f, s).Some? <==> exists i :: 0 <= i <= |s| && f(s[i..]).Some?
    ensures First(f, s).Some? ==>
      exists i :: 0 <= i <= |s| && First(f, s) == f(s[i..])
        && forall j :: 0 <= j < i ==> f(s[j..]).None?
    decreases |s|
  {
    assert s[0..] == s;
    if f(s).Some? {
    } else if s == [] {
      forall i | 0 <= i <= |s| ensures f(s[i..]).None? {
        assert i == 0;
      }
    } else {
      var t := s[1..];
      FirstIsLeftmost(f, t);
      forall i | 1 <= i <= |s| ensures s[i..] == t[i - 1..] {
      }
      if First(f, t).Some? {
        var i :| 0 <= i <= |t| && First(f, t) == f(t[i..]) && forall j :: 0 <= j < i ==> f(t[j..]).None?;
        assert First(f, s) == f(s[i + 1..]);
        forall j | 0 <= j < i + 1 ensures f(s[j..]).None? {
          if j > 0 {
            assert f(t[j - 1..]).None?;
          }
        }
      } else {
        forall i | 0 <= i <= |s| ensures f(s[i..]).None? {
          if i > 0 {
            assert f(t[i - 1..]).None?;
          }
        }
      }
    }
  }

  /** `First` passes over positions where `f` gives nothing. */
  lemma {:induction false} FirstSkips<T>(f: string -> Option<T>, s: string, n: nat)
    requires n <= |s| && forall j :: 0 <= j < n ==> f(s[j..]).None?
    ensures First(f, s) == First(f, s[n..])
    decreases n
  {
    if n > 0 {
      assert s[0..] == s;
      forall j | 0 <= j < n - 1 ensures f(s[1..][j..]).None? {
        assert s[1..][j..] == s[j + 1..];
      }
      FirstSkips(f, s[1..], n - 1);
      assert s[1..][n - 1..] == s[n..];
    }
  }
}
