/** List operations shared by the quiz editors. */
module Lists {
  /** `list.filter((_, i) => i !== idx)`: the list without position `idx`;
      an index outside the list removes nothing. */
  function Without<T>(s: seq<T>, idx: int): (r: seq<T>)
    ensures 0 <= idx < |s| ==> |r| == |s| - 1 && r == s[..idx] + s[idx + 1..]
    ensures !(0 <= idx < |s|) ==> r == s
  {
    if s == [] then []
    else
      var rest := Without(s[1..], idx - 1);
      if idx == 0 then rest
      else
        assert 0 < idx < |s| ==> s[1..][..idx - 1] == s[1..idx] && s[1..][idx..] == s[idx + 1..];
        [s[0]] + rest
  }
}
