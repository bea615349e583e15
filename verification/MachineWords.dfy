// Machine integers: how many values a size_t has.
module MachineWords {
  const WORD: nat := 0x1_0000_0000_0000_0000
}
