/** Real arithmetic shared by the price models. */
module Numbers {

  function Max(a: real, b: real): real { if a >= b then a else b }
  function Min(a: real, b: real): real { if a <= b then a else b }
}
