/** The playlist creator, `create_top_hits_playlist`, and the choice of the
    new playlist's name. */
module PlaylistCreator {
  import opened Common

  /** Status of a successful creation. */
  const Created: int := 201

  /** The creation endpoint's reply: status and the `id` of its body. */
  datatype CreatePlaylistResponse = CreatePlaylistResponse(status: int, id: string)

  /** `create_top_hits_playlist`: the new playlist's id on 201, `None` otherwise. */
  function CreateTopHitsPlaylist(response: CreatePlaylistResponse): (playlistId: Option<string>)
    ensures playlistId.Some? <==> response.status == Created
    ensures playlistId.Some? ==> playlistId.value == response.id
  {
    if response.status == Created then Some(response.id) else None
  }

  /** The number a string of decimal digits spells, most significant digit first. */
  function DigitsValue(s: string): int
  {
    if s == [] then 0 else 10 * DigitsValue(s[..|s| - 1]) + (s[|s| - 1] as int - '0' as int)
  }

  /** Decimal digits of a natural number, as `str` gives them: the digits
      spell `n`, and there is no leading zero. */
  function DecimalString(n: nat): (s: string)
    ensures |s| >= 1
    ensures forall i :: 0 <= i < |s| ==> '0' <= s[i] <= '9'
    ensures DigitsValue(s) == n
    ensures n > 0 ==> s[0] != '0'
    ensures n < 10 <==> |s| == 1
  {
    var digit := ['0' + (n % 10) as char];
    if n < 10 then digit
    else
      var s := DecimalString(n / 10) + digit;
      assert s[..|s| - 1] == DecimalString(n / 10);
      s
  }

  const DefaultNamePrefix: string := "My Artist's Top Hits "

  /** The default playlist name for the current year: the prefix followed by
      the year's decimal digits. */
  function DefaultPlaylistName(year: nat): (name: string)
    ensures TruthyString(name)
    ensures |name| > |DefaultNamePrefix| && name[..|DefaultNamePrefix|] == DefaultNamePrefix
    ensures DigitsValue(name[|DefaultNamePrefix|..]) == year
    ensures forall i :: |DefaultNamePrefix| <= i < |name| ==> '0' <= name[i] <= '9'
    ensures year > 0 ==> name[|DefaultNamePrefix|] != '0'
  {
    var name := DefaultNamePrefix + DecimalString(year);
    assert name[|DefaultNamePrefix|..] == DecimalString(year);
    name
  }

  /** The name the playlist is created with: the name the user chose, when
      the session holds a non-empty one, else the default. */
  function PlaylistName(sessionName: Option<string>, defaultName: string): (name: string)
    ensures TruthyOption(sessionName) ==> name == sessionName.value
    ensures !TruthyOption(sessionName) ==> name == defaultName
    ensures TruthyString(defaultName) ==> TruthyString(name)
  {
    if TruthyOption(sessionName) then sessionName.value else defaultName
  }
}
