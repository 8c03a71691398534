/**
 * Shader uniform cells. The program publishes every live parameter through an
 * object `{type, value}` whose `value` is updated in place, so that the
 * renderer, which holds the same object, sees each new value without being told.
 * A scalar cell (`type: 'f'`) is a `Cell`; a 32-slot float array cell
 * (`type: 'fv'`) is an `array<real>` whose slots are written in place.
 * The `type` tag never changes, so it is carried by the Dafny type.
 */
module Uniforms {
  class Cell {
    var value: real

    constructor (initial: real)
      ensures value == initial
    {
      value := initial;
    }
  }
}
