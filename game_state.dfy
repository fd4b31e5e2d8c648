/** The `GameState` enum both guest programs declare (`#[repr(u8)]`), and the
    byte `state as u8` that they commit to the journal. */
module GameStates {
  import opened Wrappers

  newtype uint8 = x: int | 0 <= x < 0x100

  datatype GameState = Ongoing | Win | Loss | Draw

  /** `state as u8`: the enum's explicit discriminant. */
  function Discriminant(s: GameState): (b: uint8)
    ensures b <= 3
  {
    match s
    case Ongoing => 0
    case Win => 1
    case Loss => 2
    case Draw => 3
  }

  /** What a reader of the journal recovers from the state byte. */
  function FromDiscriminant(b: uint8): (s: Option<GameState>)
  {
    match b
    case 0 => Some(Ongoing)
    case 1 => Some(Win)
    case 2 => Some(Loss)
    case 3 => Some(Draw)
    case _ => None
  }

  /** The state byte identifies the state: decoding it gives the state back. */
  lemma DiscriminantRoundTrip(s: GameState)
    ensures FromDiscriminant(Discriminant(s)) == Some(s)
  {
  }

  /** Exactly the bytes 0 to 3 are discriminants, and each comes from its state. */
  lemma DiscriminantOnto(b: uint8)
    ensures FromDiscriminant(b).Some? <==> b <= 3
    ensures FromDiscriminant(b).Some? ==> Discriminant(FromDiscriminant(b).value) == b
  {
  }

  /** Distinct states are committed as distinct bytes. */
  lemma DiscriminantInjective(s: GameState, t: GameState)
    ensures Discriminant(s) == Discriminant(t) ==> s == t
  {
  }
}
