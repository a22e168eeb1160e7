/** The colour value sent to one LED: three bytes in wire order, plus the
    library's named constants. */
module Colors {
  import opened MachineTypes

  /** `Color(pub [u8; 3])`: byte 0 is sent first, then byte 1, then byte 2.
      The named constants treat byte 0 as red, 1 as green and 2 as blue. */
  datatype Color = Color(r: u8, g: u8, b: u8)
  {
    /** The three bytes in array (and transmission) order. */
    function Bytes(): (bs: seq<u8>)
      ensures |bs| == 3
    {
      [r, g, b]
    }
  }

  function Red(): Color { Color(255, 0, 0) }
  function Green(): Color { Color(0, 255, 0) }
  function Blue(): Color { Color(0, 0, 255) }
  function Cyan(): Color { Color(0, 255, 255) }
  function Magenta(): Color { Color(255, 0, 255) }
  function Yellow(): Color { Color(255, 255, 0) }
  function White(): Color { Color(255, 255, 255) }
  function Orange(): Color { Color(255, 165, 0) }
  function Purple(): Color { Color(128, 0, 128) }
  function Pink(): Color { Color(255, 192, 203) }
  function Brown(): Color { Color(165, 42, 42) }

  /** Each named constant is the byte array the library writes for it. */
  lemma NamedColorBytes()
    ensures Red().Bytes() == [255, 0, 0] && Green().Bytes() == [0, 255, 0]
    ensures Blue().Bytes() == [0, 0, 255] && Cyan().Bytes() == [0, 255, 255]
    ensures Magenta().Bytes() == [255, 0, 255] && Yellow().Bytes() == [255, 255, 0]
    ensures White().Bytes() == [255, 255, 255] && Orange().Bytes() == [255, 165, 0]
    ensures Purple().Bytes() == [128, 0, 128] && Pink().Bytes() == [255, 192, 203]
    ensures Brown().Bytes() == [165, 42, 42]
  {
  }
}
