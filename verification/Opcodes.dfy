/** The opcode tables of the emulator and of the disassembler. */
module Opcodes {

  type opcode = x: int | 0 <= x < 256

  datatype Mode = Imp | Acc | Imm | Zp | Zpx | Zpy | Rel | Abso | Absx | Absy | Ind | Indx | Indy

  datatype Op =
    | Adc | And | Asl | Bcc | Bcs | Beq | Bit | Bmi | Bne | Bpl | Brk | Bvc | Bvs | Clc | Cld | Cli
    | Clv | Cmp | Cpx | Cpy | Dcp | Dec | Dex | Dey | Eor | Inc | Inx | Iny | Isb | Jmp | Jsr | Lax
    | Lda | Ldx | Ldy | Lsr | Nop | Ora | Pha | Php | Pla | Plp | Rla | Rol | Ror | Rra | Rti | Rts
    | Sax | Sbc | Sec | Sed | Sei | Slo | Sre | Sta | Stx | Sty | Tax | Tay | Tsx | Txa | Txs | Tya

  // The disassembler's addressing types; Und is an entry named "und", which
  // has no operand.
  datatype DisType =
    | NoOperand | Immediate | ARegister | ZeroPage | ZeroPageX | ZeroPageY | Relative | Absolute
    | AbsoluteX | AbsoluteY | AbsoluteIndirect | PreIndexed | PostIndexed | Und

  // addrtable
  function ModeOf(op: opcode): Mode {
    if op < 0x20 then
      match op
      case 0x00 => Imp case 0x01 => Indx case 0x02 => Imp case 0x03 => Indx
      case 0x04 => Zp case 0x05 => Zp case 0x06 => Zp case 0x07 => Zp
      case 0x08 => Imp case 0x09 => Imm case 0x0A => Acc case 0x0B => Imm
      case 0x0C => Abso case 0x0D => Abso case 0x0E => Abso case 0x0F => Abso
      case 0x10 => Rel case 0x11 => Indy case 0x12 => Imp case 0x13 => Indy
      case 0x14 => Zpx case 0x15 => Zpx case 0x16 => Zpx case 0x17 => Zpx
      case 0x18 => Imp case 0x19 => Absy case 0x1A => Imp case 0x1B => Absy
      case 0x1C => Absx case 0x1D => Absx case 0x1E => Absx case _ => Absx
    else if op < 0x40 then
      match op
      case 0x20 => Abso case 0x21 => Indx case 0x22 => Imp case 0x23 => Indx
      case 0x24 => Zp case 0x25 => Zp case 0x26 => Zp case 0x27 => Zp
      case 0x28 => Imp case 0x29 => Imm case 0x2A => Acc case 0x2B => Imm
      case 0x2C => Abso case 0x2D => Abso case 0x2E => Abso case 0x2F => Abso
      case 0x30 => Rel case 0x31 => Indy case 0x32 => Imp case 0x33 => Indy
      case 0x34 => Zpx case 0x35 => Zpx case 0x36 => Zpx case 0x37 => Zpx
      case 0x38 => Imp case 0x39 => Absy case 0x3A => Imp case 0x3B => Absy
      case 0x3C => Absx case 0x3D => Absx case 0x3E => Absx case _ => Absx
    else if op < 0x60 then
      match op
      case 0x40 => Imp case 0x41 => Indx case 0x42 => Imp case 0x43 => Indx
      case 0x44 => Zp case 0x45 => Zp case 0x46 => Zp case 0x47 => Zp
      case 0x48 => Imp case 0x49 => Imm case 0x4A => Acc case 0x4B => Imm
      case 0x4C => Abso case 0x4D => Abso case 0x4E => Abso case 0x4F => Abso
      case 0x50 => Rel case 0x51 => Indy case 0x52 => Imp case 0x53 => Indy
      case 0x54 => Zpx case 0x55 => Zpx case 0x56 => Zpx case 0x57 => Zpx
      case 0x58 => Imp case 0x59 => Absy case 0x5A => Imp case 0x5B => Absy
      case 0x5C => Absx case 0x5D => Absx case 0x5E => Absx case _ => Absx
    else if op < 0x80 then
      match op
      case 0x60 => Imp case 0x61 => Indx case 0x62 => Imp case 0x63 => Indx
      case 0x64 => Zp case 0x65 => Zp case 0x66 => Zp case 0x67 => Zp
      case 0x68 => Imp case 0x69 => Imm case 0x6A => Acc case 0x6B => Imm
      case 0x6C => Ind case 0x6D => Abso case 0x6E => Abso case 0x6F => Abso
      case 0x70 => Rel case 0x71 => Indy case 0x72 => Imp case 0x73 => Indy
      case 0x74 => Zpx case 0x75 => Zpx case 0x76 => Zpx case 0x77 => Zpx
      case 0x78 => Imp case 0x79 => Absy case 0x7A => Imp case 0x7B => Absy
      case 0x7C => Absx case 0x7D => Absx case 0x7E => Absx case _ => Absx
    else if op < 0xA0 then
      match op
      case 0x80 => Imm case 0x81 => Indx case 0x82 => Imm case 0x83 => Indx
      case 0x84 => Zp case 0x85 => Zp case 0x86 => Zp case 0x87 => Zp
      case 0x88 => Imp case 0x89 => Imm case 0x8A => Imp case 0x8B => Imm
      case 0x8C => Abso case 0x8D => Abso case 0x8E => Abso case 0x8F => Abso
      case 0x90 => Rel case 0x91 => Indy case 0x92 => Imp case 0x93 => Indy
      case 0x94 => Zpx case 0x95 => Zpx case 0x96 => Zpy case 0x97 => Zpy
      case 0x98 => Imp case 0x99 => Absy case 0x9A => Imp case 0x9B => Absy
      case 0x9C => Absx case 0x9D => Absx case 0x9E => Absy case _ => Absy
    else if op < 0xC0 then
      match op
      case 0xA0 => Imm case 0xA1 => Indx case 0xA2 => Imm case 0xA3 => Indx
      case 0xA4 => Zp case 0xA5 => Zp case 0xA6 => Zp case 0xA7 => Zp
      case 0xA8 => Imp case 0xA9 => Imm case 0xAA => Imp case 0xAB => Imm
      case 0xAC => Abso case 0xAD => Abso case 0xAE => Abso case 0xAF => Abso
      case 0xB0 => Rel case 0xB1 => Indy case 0xB2 => Imp case 0xB3 => Indy
      case 0xB4 => Zpx case 0xB5 => Zpx case 0xB6 => Zpy case 0xB7 => Zpy
      case 0xB8 => Imp case 0xB9 => Absy case 0xBA => Imp case 0xBB => Absy
      case 0xBC => Absx case 0xBD => Absx case 0xBE => Absy case _ => Absy
    else if op < 0xE0 then
      match op
      case 0xC0 => Imm case 0xC1 => Indx case 0xC2 => Imm case 0xC3 => Indx
      case 0xC4 => Zp case 0xC5 => Zp case 0xC6 => Zp case 0xC7 => Zp
      case 0xC8 => Imp case 0xC9 => Imm case 0xCA => Imp case 0xCB => Imm
      case 0xCC => Abso case 0xCD => Abso case 0xCE => Abso case 0xCF => Abso
      case 0xD0 => Rel case 0xD1 => Indy case 0xD2 => Imp case 0xD3 => Indy
      case 0xD4 => Zpx case 0xD5 => Zpx case 0xD6 => Zpx case 0xD7 => Zpx
      case 0xD8 => Imp case 0xD9 => Absy case 0xDA => Imp case 0xDB => Absy
      case 0xDC => Absx case 0xDD => Absx case 0xDE => Absx case _ => Absx
    else
      match op
      case 0xE0 => Imm case 0xE1 => Indx case 0xE2 => Imm case 0xE3 => Indx
      case 0xE4 => Zp case 0xE5 => Zp case 0xE6 => Zp case 0xE7 => Zp
      case 0xE8 => Imp case 0xE9 => Imm case 0xEA => Imp case 0xEB => Imm
      case 0xEC => Abso case 0xED => Abso case 0xEE => Abso case 0xEF => Abso
      case 0xF0 => Rel case 0xF1 => Indy case 0xF2 => Imp case 0xF3 => Indy
      case 0xF4 => Zpx case 0xF5 => Zpx case 0xF6 => Zpx case 0xF7 => Zpx
      case 0xF8 => Imp case 0xF9 => Absy case 0xFA => Imp case 0xFB => Absy
      case 0xFC => Absx case 0xFD => Absx case 0xFE => Absx case _ => Absx
  }

  // optable
  function OpOf(op: opcode): Op {
    if op < 0x20 then
      match op
      case 0x00 => Brk case 0x01 => Ora case 0x02 => Nop case 0x03 => Slo
      case 0x04 => Nop case 0x05 => Ora case 0x06 => Asl case 0x07 => Slo
      case 0x08 => Php case 0x09 => Ora case 0x0A => Asl case 0x0B => Nop
      case 0x0C => Nop case 0x0D => Ora case 0x0E => Asl case 0x0F => Slo
      case 0x10 => Bpl case 0x11 => Ora case 0x12 => Nop case 0x13 => Slo
      case 0x14 => Nop case 0x15 => Ora case 0x16 => Asl case 0x17 => Slo
      case 0x18 => Clc case 0x19 => Ora case 0x1A => Nop case 0x1B => Slo
      case 0x1C => Nop case 0x1D => Ora case 0x1E => Asl case _ => Slo
    else if op < 0x40 then
      match op
      case 0x20 => Jsr case 0x21 => And case 0x22 => Nop case 0x23 => Rla
      case 0x24 => Bit case 0x25 => And case 0x26 => Rol case 0x27 => Rla
      case 0x28 => Plp case 0x29 => And case 0x2A => Rol case 0x2B => Nop
      case 0x2C => Bit case 0x2D => And case 0x2E => Rol case 0x2F => Rla
      case 0x30 => Bmi case 0x31 => And case 0x32 => Nop case 0x33 => Rla
      case 0x34 => Nop case 0x35 => And case 0x36 => Rol case 0x37 => Rla
      case 0x38 => Sec case 0x39 => And case 0x3A => Nop case 0x3B => Rla
      case 0x3C => Nop case 0x3D => And case 0x3E => Rol case _ => Rla
    else if op < 0x60 then
      match op
      case 0x40 => Rti case 0x41 => Eor case 0x42 => Nop case 0x43 => Sre
      case 0x44 => Nop case 0x45 => Eor case 0x46 => Lsr case 0x47 => Sre
      case 0x48 => Pha case 0x49 => Eor case 0x4A => Lsr case 0x4B => Nop
      case 0x4C => Jmp case 0x4D => Eor case 0x4E => Lsr case 0x4F => Sre
      case 0x50 => Bvc case 0x51 => Eor case 0x52 => Nop case 0x53 => Sre
      case 0x54 => Nop case 0x55 => Eor case 0x56 => Lsr case 0x57 => Sre
      case 0x58 => Cli case 0x59 => Eor case 0x5A => Nop case 0x5B => Sre
      case 0x5C => Nop case 0x5D => Eor case 0x5E => Lsr case _ => Sre
    else if op < 0x80 then
      match op
      case 0x60 => Rts case 0x61 => Adc case 0x62 => Nop case 0x63 => Rra
      case 0x64 => Nop case 0x65 => Adc case 0x66 => Ror case 0x67 => Rra
      case 0x68 => Pla case 0x69 => Adc case 0x6A => Ror case 0x6B => Nop
      case 0x6C => Jmp case 0x6D => Adc case 0x6E => Ror case 0x6F => Rra
      case 0x70 => Bvs case 0x71 => Adc case 0x72 => Nop case 0x73 => Rra
      case 0x74 => Nop case 0x75 => Adc case 0x76 => Ror case 0x77 => Rra
      case 0x78 => Sei case 0x79 => Adc case 0x7A => Nop case 0x7B => Rra
      case 0x7C => Nop case 0x7D => Adc case 0x7E => Ror case _ => Rra
    else if op < 0xA0 then
      match op
      case 0x80 => Nop case 0x81 => Sta case 0x82 => Nop case 0x83 => Sax
      case 0x84 => Sty case 0x85 => Sta case 0x86 => Stx case 0x87 => Sax
      case 0x88 => Dey case 0x89 => Nop case 0x8A => Txa case 0x8B => Nop
      case 0x8C => Sty case 0x8D => Sta case 0x8E => Stx case 0x8F => Sax
      case 0x90 => Bcc case 0x91 => Sta case 0x92 => Nop case 0x93 => Nop
      case 0x94 => Sty case 0x95 => Sta case 0x96 => Stx case 0x97 => Sax
      case 0x98 => Tya case 0x99 => Sta case 0x9A => Txs case 0x9B => Nop
      case 0x9C => Nop case 0x9D => Sta case 0x9E => Nop case _ => Nop
    else if op < 0xC0 then
      match op
      case 0xA0 => Ldy case 0xA1 => Lda case 0xA2 => Ldx case 0xA3 => Lax
      case 0xA4 => Ldy case 0xA5 => Lda case 0xA6 => Ldx case 0xA7 => Lax
      case 0xA8 => Tay case 0xA9 => Lda case 0xAA => Tax case 0xAB => Nop
      case 0xAC => Ldy case 0xAD => Lda case 0xAE => Ldx case 0xAF => Lax
      case 0xB0 => Bcs case 0xB1 => Lda case 0xB2 => Nop case 0xB3 => Lax
      case 0xB4 => Ldy case 0xB5 => Lda case 0xB6 => Ldx case 0xB7 => Lax
      case 0xB8 => Clv case 0xB9 => Lda case 0xBA => Tsx case 0xBB => Lax
      case 0xBC => Ldy case 0xBD => Lda case 0xBE => Ldx case _ => Lax
    else if op < 0xE0 then
      match op
      case 0xC0 => Cpy case 0xC1 => Cmp case 0xC2 => Nop case 0xC3 => Dcp
      case 0xC4 => Cpy case 0xC5 => Cmp case 0xC6 => Dec case 0xC7 => Dcp
      case 0xC8 => Iny case 0xC9 => Cmp case 0xCA => Dex case 0xCB => Nop
      case 0xCC => Cpy case 0xCD => Cmp case 0xCE => Dec case 0xCF => Dcp
      case 0xD0 => Bne case 0xD1 => Cmp case 0xD2 => Nop case 0xD3 => Dcp
      case 0xD4 => Nop case 0xD5 => Cmp case 0xD6 => Dec case 0xD7 => Dcp
      case 0xD8 => Cld case 0xD9 => Cmp case 0xDA => Nop case 0xDB => Dcp
      case 0xDC => Nop case 0xDD => Cmp case 0xDE => Dec case _ => Dcp
    else
      match op
      case 0xE0 => Cpx case 0xE1 => Sbc case 0xE2 => Nop case 0xE3 => Isb
      case 0xE4 => Cpx case 0xE5 => Sbc case 0xE6 => Inc case 0xE7 => Isb
      case 0xE8 => Inx case 0xE9 => Sbc case 0xEA => Nop case 0xEB => Sbc
      case 0xEC => Cpx case 0xED => Sbc case 0xEE => Inc case 0xEF => Isb
      case 0xF0 => Beq case 0xF1 => Sbc case 0xF2 => Nop case 0xF3 => Isb
      case 0xF4 => Nop case 0xF5 => Sbc case 0xF6 => Inc case 0xF7 => Isb
      case 0xF8 => Sed case 0xF9 => Sbc case 0xFA => Nop case 0xFB => Isb
      case 0xFC => Nop case 0xFD => Sbc case 0xFE => Inc case _ => Isb
  }

  // ticktable
  function Ticks(op: opcode): int {
    if op < 0x20 then
      match op
      case 0x00 => 7 case 0x01 => 6 case 0x02 => 2 case 0x03 => 8
      case 0x04 => 3 case 0x05 => 3 case 0x06 => 5 case 0x07 => 5
      case 0x08 => 3 case 0x09 => 2 case 0x0A => 2 case 0x0B => 2
      case 0x0C => 4 case 0x0D => 4 case 0x0E => 6 case 0x0F => 6
      case 0x10 => 2 case 0x11 => 5 case 0x12 => 2 case 0x13 => 8
      case 0x14 => 4 case 0x15 => 4 case 0x16 => 6 case 0x17 => 6
      case 0x18 => 2 case 0x19 => 4 case 0x1A => 2 case 0x1B => 7
      case 0x1C => 4 case 0x1D => 4 case 0x1E => 7 case _ => 7
    else if op < 0x40 then
      match op
      case 0x20 => 6 case 0x21 => 6 case 0x22 => 2 case 0x23 => 8
      case 0x24 => 3 case 0x25 => 3 case 0x26 => 5 case 0x27 => 5
      case 0x28 => 4 case 0x29 => 2 case 0x2A => 2 case 0x2B => 2
      case 0x2C => 4 case 0x2D => 4 case 0x2E => 6 case 0x2F => 6
      case 0x30 => 2 case 0x31 => 5 case 0x32 => 2 case 0x33 => 8
      case 0x34 => 4 case 0x35 => 4 case 0x36 => 6 case 0x37 => 6
      case 0x38 => 2 case 0x39 => 4 case 0x3A => 2 case 0x3B => 7
      case 0x3C => 4 case 0x3D => 4 case 0x3E => 7 case _ => 7
    else if op < 0x60 then
      match op
      case 0x40 => 6 case 0x41 => 6 case 0x42 => 2 case 0x43 => 8
      case 0x44 => 3 case 0x45 => 3 case 0x46 => 5 case 0x47 => 5
      case 0x48 => 3 case 0x49 => 2 case 0x4A => 2 case 0x4B => 2
      case 0x4C => 3 case 0x4D => 4 case 0x4E => 6 case 0x4F => 6
      case 0x50 => 2 case 0x51 => 5 case 0x52 => 2 case 0x53 => 8
      case 0x54 => 4 case 0x55 => 4 case 0x56 => 6 case 0x57 => 6
      case 0x58 => 2 case 0x59 => 4 case 0x5A => 2 case 0x5B => 7
      case 0x5C => 4 case 0x5D => 4 case 0x5E => 7 case _ => 7
    else if op < 0x80 then
      match op
      case 0x60 => 6 case 0x61 => 6 case 0x62 => 2 case 0x63 => 8
      case 0x64 => 3 case 0x65 => 3 case 0x66 => 5 case 0x67 => 5
      case 0x68 => 4 case 0x69 => 2 case 0x6A => 2 case 0x6B => 2
      case 0x6C => 5 case 0x6D => 4 case 0x6E => 6 case 0x6F => 6
      case 0x70 => 2 case 0x71 => 5 case 0x72 => 2 case 0x73 => 8
      case 0x74 => 4 case 0x75 => 4 case 0x76 => 6 case 0x77 => 6
      case 0x78 => 2 case 0x79 => 4 case 0x7A => 2 case 0x7B => 7
      case 0x7C => 4 case 0x7D => 4 case 0x7E => 7 case _ => 7
    else if op < 0xA0 then
      match op
      case 0x80 => 2 case 0x81 => 6 case 0x82 => 2 case 0x83 => 6
      case 0x84 => 3 case 0x85 => 3 case 0x86 => 3 case 0x87 => 3
      case 0x88 => 2 case 0x89 => 2 case 0x8A => 2 case 0x8B => 2
      case 0x8C => 4 case 0x8D => 4 case 0x8E => 4 case 0x8F => 4
      case 0x90 => 2 case 0x91 => 6 case 0x92 => 2 case 0x93 => 6
      case 0x94 => 4 case 0x95 => 4 case 0x96 => 4 case 0x97 => 4
      case 0x98 => 2 case 0x99 => 5 case 0x9A => 2 case 0x9B => 5
      case 0x9C => 5 case 0x9D => 5 case 0x9E => 5 case _ => 5
    else if op < 0xC0 then
      match op
      case 0xA0 => 2 case 0xA1 => 6 case 0xA2 => 2 case 0xA3 => 6
      case 0xA4 => 3 case 0xA5 => 3 case 0xA6 => 3 case 0xA7 => 3
      case 0xA8 => 2 case 0xA9 => 2 case 0xAA => 2 case 0xAB => 2
      case 0xAC => 4 case 0xAD => 4 case 0xAE => 4 case 0xAF => 4
      case 0xB0 => 2 case 0xB1 => 5 case 0xB2 => 2 case 0xB3 => 5
      case 0xB4 => 4 case 0xB5 => 4 case 0xB6 => 4 case 0xB7 => 4
      case 0xB8 => 2 case 0xB9 => 4 case 0xBA => 2 case 0xBB => 4
      case 0xBC => 4 case 0xBD => 4 case 0xBE => 4 case _ => 4
    else if op < 0xE0 then
      match op
      case 0xC0 => 2 case 0xC1 => 6 case 0xC2 => 2 case 0xC3 => 8
      case 0xC4 => 3 case 0xC5 => 3 case 0xC6 => 5 case 0xC7 => 5
      case 0xC8 => 2 case 0xC9 => 2 case 0xCA => 2 case 0xCB => 2
      case 0xCC => 4 case 0xCD => 4 case 0xCE => 6 case 0xCF => 6
      case 0xD0 => 2 case 0xD1 => 5 case 0xD2 => 2 case 0xD3 => 8
      case 0xD4 => 4 case 0xD5 => 4 case 0xD6 => 6 case 0xD7 => 6
      case 0xD8 => 2 case 0xD9 => 4 case 0xDA => 2 case 0xDB => 7
      case 0xDC => 4 case 0xDD => 4 case 0xDE => 7 case _ => 7
    else
      match op
      case 0xE0 => 2 case 0xE1 => 6 case 0xE2 => 2 case 0xE3 => 8
      case 0xE4 => 3 case 0xE5 => 3 case 0xE6 => 5 case 0xE7 => 5
      case 0xE8 => 2 case 0xE9 => 2 case 0xEA => 2 case 0xEB => 2
      case 0xEC => 4 case 0xED => 4 case 0xEE => 6 case 0xEF => 6
      case 0xF0 => 2 case 0xF1 => 5 case 0xF2 => 2 case 0xF3 => 8
      case 0xF4 => 4 case 0xF5 => 4 case 0xF6 => 6 case 0xF7 => 6
      case 0xF8 => 2 case 0xF9 => 4 case 0xFA => 2 case 0xFB => 7
      case 0xFC => 4 case 0xFD => 4 case 0xFE => 7 case _ => 7
  }

  // dis6502
  function DisOf(op: opcode): DisType {
    if op < 0x20 then
      match op
      case 0x00 => NoOperand case 0x01 => PreIndexed case 0x02 => Und case 0x03 => Und
      case 0x04 => Und case 0x05 => ZeroPage case 0x06 => ZeroPage case 0x07 => Und
      case 0x08 => NoOperand case 0x09 => Immediate case 0x0A => ARegister case 0x0B => Und
      case 0x0C => Und case 0x0D => Absolute case 0x0E => Absolute case 0x0F => Und
      case 0x10 => Relative case 0x11 => PostIndexed case 0x12 => Und case 0x13 => Und
      case 0x14 => Und case 0x15 => ZeroPageX case 0x16 => ZeroPageX case 0x17 => Und
      case 0x18 => NoOperand case 0x19 => AbsoluteY case 0x1A => Und case 0x1B => Und
      case 0x1C => Und case 0x1D => AbsoluteX case 0x1E => AbsoluteX case _ => Und
    else if op < 0x40 then
      match op
      case 0x20 => Absolute case 0x21 => PreIndexed case 0x22 => Und case 0x23 => Und
      case 0x24 => ZeroPage case 0x25 => ZeroPage case 0x26 => ZeroPage case 0x27 => Und
      case 0x28 => NoOperand case 0x29 => Immediate case 0x2A => ARegister case 0x2B => Und
      case 0x2C => Absolute case 0x2D => Absolute case 0x2E => Absolute case 0x2F => Und
      case 0x30 => Relative case 0x31 => PostIndexed case 0x32 => Und case 0x33 => Und
      case 0x34 => Und case 0x35 => ZeroPageX case 0x36 => ZeroPageX case 0x37 => Und
      case 0x38 => NoOperand case 0x39 => AbsoluteY case 0x3A => Und case 0x3B => Und
      case 0x3C => Und case 0x3D => AbsoluteX case 0x3E => AbsoluteX case _ => Und
    else if op < 0x60 then
      match op
      case 0x40 => NoOperand case 0x41 => PreIndexed case 0x42 => Und case 0x43 => Und
      case 0x44 => Und case 0x45 => ZeroPage case 0x46 => ZeroPage case 0x47 => Und
      case 0x48 => NoOperand case 0x49 => Immediate case 0x4A => ARegister case 0x4B => Und
      case 0x4C => Absolute case 0x4D => Absolute case 0x4E => Absolute case 0x4F => Und
      case 0x50 => Relative case 0x51 => PostIndexed case 0x52 => Und case 0x53 => Und
      case 0x54 => Und case 0x55 => ZeroPageX case 0x56 => ZeroPageX case 0x57 => Und
      case 0x58 => NoOperand case 0x59 => AbsoluteY case 0x5A => Und case 0x5B => Und
      case 0x5C => Und case 0x5D => AbsoluteX case 0x5E => AbsoluteX case _ => Und
    else if op < 0x80 then
      match op
      case 0x60 => NoOperand case 0x61 => PreIndexed case 0x62 => Und case 0x63 => Und
      case 0x64 => Und case 0x65 => ZeroPage case 0x66 => ZeroPage case 0x67 => Und
      case 0x68 => NoOperand case 0x69 => Immediate case 0x6A => ARegister case 0x6B => Und
      case 0x6C => AbsoluteIndirect case 0x6D => Absolute case 0x6E => Absolute case 0x6F => Und
      case 0x70 => Relative case 0x71 => PostIndexed case 0x72 => Und case 0x73 => Und
      case 0x74 => Und case 0x75 => ZeroPageX case 0x76 => ZeroPageX case 0x77 => Und
      case 0x78 => NoOperand case 0x79 => AbsoluteY case 0x7A => Und case 0x7B => Und
      case 0x7C => Und case 0x7D => AbsoluteX case 0x7E => AbsoluteX case _ => Und
    else if op < 0xA0 then
      match op
      case 0x80 => Und case 0x81 => PreIndexed case 0x82 => Und case 0x83 => Und
      case 0x84 => ZeroPage case 0x85 => ZeroPage case 0x86 => ZeroPage case 0x87 => Und
      case 0x88 => NoOperand case 0x89 => Und case 0x8A => NoOperand case 0x8B => Und
      case 0x8C => Absolute case 0x8D => Absolute case 0x8E => Absolute case 0x8F => Und
      case 0x90 => Relative case 0x91 => PostIndexed case 0x92 => Und case 0x93 => Und
      case 0x94 => ZeroPageX case 0x95 => ZeroPageX case 0x96 => ZeroPageY case 0x97 => Und
      case 0x98 => NoOperand case 0x99 => AbsoluteY case 0x9A => NoOperand case 0x9B => Und
      case 0x9C => Und case 0x9D => AbsoluteX case 0x9E => Und case _ => Und
    else if op < 0xC0 then
      match op
      case 0xA0 => Immediate case 0xA1 => PreIndexed case 0xA2 => Immediate case 0xA3 => Und
      case 0xA4 => ZeroPage case 0xA5 => ZeroPage case 0xA6 => ZeroPage case 0xA7 => Und
      case 0xA8 => NoOperand case 0xA9 => Immediate case 0xAA => NoOperand case 0xAB => Und
      case 0xAC => Absolute case 0xAD => Absolute case 0xAE => Absolute case 0xAF => Und
      case 0xB0 => Relative case 0xB1 => PostIndexed case 0xB2 => Und case 0xB3 => Und
      case 0xB4 => ZeroPageX case 0xB5 => ZeroPageX case 0xB6 => ZeroPageY case 0xB7 => Und
      case 0xB8 => NoOperand case 0xB9 => AbsoluteY case 0xBA => NoOperand case 0xBB => Und
      case 0xBC => AbsoluteX case 0xBD => AbsoluteX case 0xBE => AbsoluteY case _ => Und
    else if op < 0xE0 then
      match op
      case 0xC0 => Immediate case 0xC1 => PreIndexed case 0xC2 => Und case 0xC3 => Und
      case 0xC4 => ZeroPage case 0xC5 => ZeroPage case 0xC6 => ZeroPage case 0xC7 => Und
      case 0xC8 => NoOperand case 0xC9 => Immediate case 0xCA => NoOperand case 0xCB => Und
      case 0xCC => Absolute case 0xCD => Absolute case 0xCE => Absolute case 0xCF => Und
      case 0xD0 => Relative case 0xD1 => PostIndexed case 0xD2 => Und case 0xD3 => Und
      case 0xD4 => Und case 0xD5 => ZeroPageX case 0xD6 => ZeroPageX case 0xD7 => Und
      case 0xD8 => NoOperand case 0xD9 => AbsoluteY case 0xDA => Und case 0xDB => Und
      case 0xDC => Und case 0xDD => AbsoluteX case 0xDE => AbsoluteX case _ => Und
    else
      match op
      case 0xE0 => Immediate case 0xE1 => PreIndexed case 0xE2 => Und case 0xE3 => Und
      case 0xE4 => ZeroPage case 0xE5 => ZeroPage case 0xE6 => ZeroPage case 0xE7 => Und
      case 0xE8 => NoOperand case 0xE9 => Immediate case 0xEA => NoOperand case 0xEB => Und
      case 0xEC => Absolute case 0xED => Absolute case 0xEE => Absolute case 0xEF => Und
      case 0xF0 => Relative case 0xF1 => PostIndexed case 0xF2 => Und case 0xF3 => Und
      case 0xF4 => Und case 0xF5 => ZeroPageX case 0xF6 => ZeroPageX case 0xF7 => Und
      case 0xF8 => NoOperand case 0xF9 => AbsoluteY case 0xFA => Und case 0xFB => Und
      case 0xFC => Und case 0xFD => AbsoluteX case 0xFE => AbsoluteX case _ => Und
  }
}
