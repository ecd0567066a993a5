/**
 * The user records of a company as the two user-management pages (the admin's
 * company page and the director's own company page) receive them, and the
 * coloured avatar both pages draw for a user: up to two upper-case initials and a
 * background colour chosen by the user's id.
 */
module CompanyUsers {
  import opened Wrappers
  import opened JsText
  import opened CategoryColor

  datatype UserDto = UserDto(id: int, name: string, surname: string, birthDate: string, email: string,
                             availability: bool, role: string)

  /** `s.charAt(0)`: the first character, or `''` for the empty string. */
  function FirstChar(s: string): (r: string)
    ensures s == "" <==> r == ""
    ensures s != "" ==> r == [s[0]]
  {
    if s == "" then "" else [s[0]]
  }

  /** JavaScript `a % b` for integers: the remainder takes the sign of the dividend. */
  function JsRem(a: int, b: int): (r: int)
    requires b > 0
    ensures -b < r < b
    ensures a >= 0 ==> r == a % b
    ensures a <= 0 ==> r <= 0 && r == -((-a) % b)
  {
    if a >= 0 then a % b else -((-a) % b)
  }

  datatype Avatar = Avatar(initials: string, backgroundColor: Option<string>)

  /**
   * `generateUserAvatar`: the first letter of the name, then the first letter of the
   * surname, or else of the e-mail, or else '?', each upper-cased; the colour is
   * `colors[id % 15]`, which is `undefined` (`None`) for an id with a negative remainder.
   */
  function AvatarOf(u: UserDto): (a: Avatar)
    ensures |a.initials| == (if u.name == "" then 1 else 2)
    ensures u.name != "" ==> a.initials[0] == UpperChar(u.name[0])
    ensures a.initials[|a.initials| - 1] ==
              if u.surname != "" then UpperChar(u.surname[0])
              else if u.email != "" then UpperChar(u.email[0])
              else '?'
    ensures a.backgroundColor.Some? <==> u.id >= 0 || u.id % 15 == 0
    ensures a.backgroundColor.Some? ==> a.backgroundColor.value in PastelPalette
    ensures u.id >= 0 ==> a.backgroundColor == Some(PastelPalette[u.id % 15])
  {
    var second := if Upper(FirstChar(u.surname)) != "" then Upper(FirstChar(u.surname))
                  else Upper(if FirstChar(u.email) != "" then FirstChar(u.email) else "?");
    var index := JsRem(u.id, |PastelPalette|);
    Avatar(Upper(FirstChar(u.name)) + second, if index >= 0 then Some(PastelPalette[index]) else None)
  }

  /** The palette repeats a colour, so the ids 9 and 24 share one with the ids 13 and 28. */
  lemma AvatarColoursRepeat(u: UserDto, v: UserDto)
    requires u.id == 9 && v.id == 13
    ensures AvatarOf(u).backgroundColor == AvatarOf(v).backgroundColor
  {
    PaletteShapes();
  }

  /** A negative id that is not a multiple of 15 gets no background colour. */
  lemma NegativeIdHasNoColour(u: UserDto)
    requires u.id == -1
    ensures AvatarOf(u).backgroundColor.None?
  {
  }

  /** `(u.role || '').toUpperCase() === 'DIRECTOR'`: the role test of the editor and the badge. */
  predicate IsDirectorRole(role: string) {
    Upper(role) == "DIRECTOR"
  }
}
