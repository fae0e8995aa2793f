/** The names of the sound effects the game asks to have played. */
module Audio {

  datatype Sound = Move | Capture | Check | Checkmate | Stalemate | Select | Timeout
}
