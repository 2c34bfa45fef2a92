/**
 * Levels of 500 XP, as the home and profile screens compute them
 * (src/screens/HomeScreen.tsx, src/screens/ProfileScreen.tsx). XP is an
 * integer here; `%` is JavaScript's truncating remainder and `Math.floor`
 * of a quotient by a positive divisor is Euclidean division.
 */
module Progression {
  import JsOps

  const XpPerLevel: int := 500

  /** `Math.floor(xp / 500) + 1`. */
  function Level(xp: int): (l: int)
    ensures (l - 1) * XpPerLevel <= xp < l * XpPerLevel
    ensures xp >= 0 ==> l >= 1
  {
    xp / XpPerLevel + 1
  }

  /** `xp % 500`: how far the user is into the current level. */
  function CurrentLevelXP(xp: int): (r: int)
    ensures xp >= 0 ==> 0 <= r < XpPerLevel
  {
    JsOps.Rem(xp, XpPerLevel)
  }

  /** `500 - xp % 500`: what the next level still asks for. */
  function XpToNextLevel(xp: int): (r: int)
    ensures r + CurrentLevelXP(xp) == XpPerLevel
    ensures xp >= 0 ==> 1 <= r <= XpPerLevel
  {
    XpPerLevel - CurrentLevelXP(xp)
  }

  /** "До уровня N": the label always names the level after the current one. */
  function NextLevelLabel(xp: int): (n: int)
    ensures n == Level(xp) + 1
    ensures xp >= 0 ==> n >= 2
  {
    Level(xp) + 1
  }

  /** For non-negative XP, level and in-level XP recompose the total, and the next level is reached exactly at the gap. */
  lemma LevelDecomposition(xp: int)
    requires xp >= 0
    ensures (Level(xp) - 1) * XpPerLevel + CurrentLevelXP(xp) == xp
    ensures Level(xp + XpToNextLevel(xp)) == Level(xp) + 1
    ensures forall y :: xp <= y < xp + XpToNextLevel(xp) ==> Level(y) == Level(xp)
  {
    var l := xp / XpPerLevel;
    var r := xp % XpPerLevel;
    assert xp == l * XpPerLevel + r;
    assert xp + XpToNextLevel(xp) == (l + 1) * XpPerLevel;
    forall y | xp <= y < xp + XpToNextLevel(xp) ensures Level(y) == Level(xp) {
      assert y == l * XpPerLevel + (r + y - xp) && 0 <= r + y - xp < XpPerLevel;
    }
  }

  /** The decomposition fails for negative XP: floor and the truncating remainder round in opposite directions. */
  lemma NegativeXpBreaksDecomposition()
    ensures Level(-250) == 0 && CurrentLevelXP(-250) == -250 && XpToNextLevel(-250) == 750
    ensures (Level(-250) - 1) * XpPerLevel + CurrentLevelXP(-250) != -250
  {
    JsOps.RemNegative();
  }
}
